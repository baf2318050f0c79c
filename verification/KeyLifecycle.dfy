/** Rotating the history key and restoring a keyring backup, each with the undo
    that is meant to make it all-or-nothing over keyring, seals and audit log. */
module KeyLifecycle {
  import opened Prelude
  import opened HashChain
  import opened DeploymentTree
  import opened TreeAttestation
  import opened HistoryKeyring
  import opened AuditLog
  import opened Activation
  import opened RetainedDeployments

  /** Everything but the seal file is the same. */
  ghost predicate SealDiffersOnly(before: Tree, after: Tree) {
    after == before.(entries := after.entries) && Covered(after) == Covered(before)
  }

  /** The tree carries this seal content in a private seal file. */
  ghost predicate CarriesSeal(tree: Tree, content: Content) {
    && SEAL_PATH in tree.entries
    && tree.entries[SEAL_PATH].FileEntry?
    && OwnerOnly(tree.entries[SEAL_PATH].mode)
    && tree.entries[SEAL_PATH].content == content
  }

  /** A tree that gets its seal content back verifies as before. */
  lemma RestoredSealVerifies(w: World, ring: Keyring, before: Tree, after: Tree)
    requires Verifies(w, Some(ring), before) && SealDiffersOnly(before, after)
    requires CarriesSeal(after, before.entries[SEAL_PATH].content)
    ensures Verifies(w, Some(ring), after)
  {
    PathsDiffer();
    assert IDENTITY_PATH in Covered(before) && Covered(before)[IDENTITY_PATH] == before.entries[IDENTITY_PATH];
    assert Covered(after)[IDENTITY_PATH] == after.entries[IDENTITY_PATH];
    assert Attest(w.hashing, after) == Attest(w.hashing, before);
  }

  /** No tree holds a file under any of the random temporary names. */
  ghost predicate UnusedTokens(entries: map<Name, Tree>, tokens: nat -> string) {
    forall n, i {:trigger FreshToken(entries[n], tokens(i))} :: n in entries ==> FreshToken(entries[n], tokens(i))
  }

  /** The tree with a new seal for its present identity and content. */
  function Resealed(w: World, key: Token, tree: Tree, now: int): Tree {
    if Sealable(w, tree) then Sealed(tree, SealEntry(w, SealOf(w, key, tree, now))) else tree
  }

  lemma ResealedDiffersOnly(w: World, key: Token, tree: Tree, now: int)
    ensures SealDiffersOnly(tree, Resealed(w, key, tree, now))
  {
    SealedCovered(tree, SealEntry(w, Seal(
      SealPayload(true, Token(""), Token(""), Token(""), 0, Token(""), Token(""), Attestation(Token(""), 0, 0)),
      NoSealMac(""))));
    if Sealable(w, tree) {
      SealedCovered(tree, Resealed(w, key, tree, now).entries[SEAL_PATH]);
    }
  }

  /** Siblings that exist, each listed once. */
  ghost predicate SiblingNames(entries: map<Name, Tree>, names: seq<Name>) {
    && (forall i :: 0 <= i < |names| ==> names[i] in entries && names[i].Previous?)
    && (forall i, j :: 0 <= i < j < |names| ==> names[i] != names[j])
  }

  /** The parent after the first k names have been resealed. */
  function ResealedFirst(
    w: World, entries: map<Name, Tree>, names: seq<Name>, k: nat, key: Token, now: int): map<Name, Tree>
    requires k <= |names|
  {
    if k == 0 then entries
    else
      var name := names[k - 1];
      var rest := ResealedFirst(w, entries, names, k - 1, key, now);
      if name in entries then rest[name := Resealed(w, key, entries[name], now)] else rest
  }

  lemma {:induction false} ResealedFirstAt(
    w: World, entries: map<Name, Tree>, names: seq<Name>, k: nat, key: Token, now: int, n: Name)
    requires k <= |names| && SiblingNames(entries, names) && n in entries
    ensures ResealedFirst(w, entries, names, k, key, now).Keys == entries.Keys
    ensures (forall i :: 0 <= i < k ==> names[i] != n) ==>
              ResealedFirst(w, entries, names, k, key, now)[n] == entries[n]
    ensures (exists i :: 0 <= i < k && names[i] == n) ==>
              ResealedFirst(w, entries, names, k, key, now)[n] == Resealed(w, key, entries[n], now)
  {
    if k > 0 {
      ResealedFirstAt(w, entries, names, k - 1, key, now, n);
      if names[k - 1] != n && (exists i :: 0 <= i < k && names[i] == n) {
        var i :| 0 <= i < k && names[i] == n;
        assert i < k - 1;
      }
    }
  }

  /** One of the three writes of the k-th seal fails, counted from this operation. */
  predicate SealFault(fails: nat -> bool, start: nat, k: nat) {
    fails(start + 3 * k) || fails(start + 3 * k + 1) || fails(start + 3 * k + 2)
  }

  /** The k-th seal is the first of n whose writes do not all succeed, or k is n. */
  ghost predicate FirstSealFault(fails: nat -> bool, start: nat, n: nat, k: nat) {
    && k <= n
    && (forall i {:trigger SealFault(fails, start, i)} :: 0 <= i < k ==> !SealFault(fails, start, i))
    && (k < n ==> SealFault(fails, start, k))
  }

  /** The deployment that a rotation whose seals start at this operation leaves with
      an abandoned temporary seal: the first whose three writes do not all succeed,
      unless already the first of them fails. */
  ghost function LostDeployment(fails: nat -> bool, start: nat, names: seq<Name>): Option<Name>
    decreases |names|
  {
    if names == [] || fails(start) then None
    else if fails(start + 1) || fails(start + 2) then Some(names[0])
    else LostDeployment(fails, start + 3, names[1..])
  }

  lemma {:induction false} LostAtFirstFault(fails: nat -> bool, start: nat, names: seq<Name>, k: nat)
    requires FirstSealFault(fails, start, |names|, k)
    ensures LostDeployment(fails, start, names)
            == if k < |names| && !fails(start + 3 * k) then Some(names[k]) else None
    decreases |names|
  {
    if names != [] {
      if k == 0 {
        assert SealFault(fails, start, 0);
      } else {
        assert !SealFault(fails, start, 0);
        forall i: nat {:trigger SealFault(fails, start + 3, i)} | i < k - 1
          ensures !SealFault(fails, start + 3, i)
        {
          assert !SealFault(fails, start, i + 1);
        }
        assert k < |names| ==> SealFault(fails, start, k) && SealFault(fails, start + 3, k - 1);
        LostAtFirstFault(fails, start + 3, names[1..], k - 1);
      }
    }
  }

  /** Whether this many seals in a row are written, and the operation after them. */
  datatype SealsEnd = SealsEnd(ok: bool, operations: nat)

  function SealsSteps(fails: nat -> bool, operation: nat, n: nat): SealsEnd
    decreases n
  {
    if n == 0 then SealsEnd(true, operation)
    else if SealFault(fails, operation, 0) then SealsEnd(false, AfterSeal(fails, operation))
    else SealsSteps(fails, operation + 3, n - 1)
  }

  /** What is left of them after some, or how they ended. */
  function SealsLeft(fails: nat -> bool, ok: bool, operation: nat, rest: nat): SealsEnd {
    if ok then SealsSteps(fails, operation, rest) else SealsEnd(false, operation)
  }

  /** The first k seals had their writes, the next one stops the loop unless ok. */
  ghost predicate SealsUntil(fails: nat -> bool, start: nat, k: nat, ok: bool, left: bool) {
    && (forall i {:trigger SealFault(fails, start, i)} :: 0 <= i < k ==> !SealFault(fails, start, i))
    && (!ok ==> SealFault(fails, start, k))
    && (left <==> !ok && !fails(start + 3 * k))
  }

  /** The loop over n seals after k of them: how far it got and where it will end. */
  ghost predicate SealsTracked(
    fails: nat -> bool, start: nat, n: nat, k: nat, ok: bool, left: bool, operation: nat)
  {
    && k <= n && (ok ==> operation == start + 3 * k)
    && SealsUntil(fails, start, k, ok, left)
    && SealsSteps(fails, start, n) == SealsLeft(fails, ok, operation, n - k)
  }

  lemma NextSeal(fails: nat -> bool, start: nat, n: nat, k: nat, ok: bool, left: bool, operation: nat, next: nat)
    requires SealsTracked(fails, start, n, k, true, false, operation) && k < n
    requires (ok <==> !SealFault(fails, operation, 0)) && (left <==> !ok && !fails(operation))
    requires next == AfterSeal(fails, operation)
    ensures SealsTracked(fails, start, n, if ok then k + 1 else k, ok, left, next)
  {
    assert SealFault(fails, operation, 0) <==> SealFault(fails, start, k);
    assert ok ==> next == operation + 3;
  }

  method ResealOne(
    w: World, dir: ParentDirectory, keyring: KeyringFile, name: Name, token: string, now: int, newKey: Token)
    returns (ok: bool, ghost stray: Option<Entry>)
    requires keyring.content.Some? && Readable(w.derivation, keyring.content.value)
    requires Current(w.derivation, keyring.content.value) == Some(HistoryKey(newKey, false))
    requires name in dir.entries && FreshToken(dir.entries[name], token)
    modifies dir, keyring
    ensures keyring.content == old(keyring.content)
    ensures ok ==>
              && stray.None?
              && Sealable(w, old(dir.entries)[name])
              && dir.entries == old(dir.entries)[name := Resealed(w, newKey, old(dir.entries)[name], now)]
    ensures !ok && stray.None? ==> dir.entries == old(dir.entries)
    ensures stray.Some? ==>
              && !stray.value.UnsupportedEntry?
              && dir.entries == old(dir.entries)[name := WithStray(old(dir.entries)[name], token, stray.value)]
    ensures name.Previous? && Sealable(w, old(dir.entries)[name]) ==>
              && (ok <==> !SealFault(dir.fails, old(dir.operations), 0))
              && (stray.Some? <==> !ok && !dir.fails(old(dir.operations)))
              && dir.operations == AfterSeal(dir.fails, old(dir.operations))
    ensures ok ==> dir.operations == old(dir.operations) + 3
    ensures keyring.operations == old(keyring.operations)
  {
    ghost var entries := dir.entries;
    var left;
    ghost var key;
    stray := None;
    ok, left, key := SealRetained(w, dir, keyring, name, token, now, newKey);
    if left {
      ghost var entry: Entry :| !entry.UnsupportedEntry? && dir.entries[name] == WithStray(entries[name], token, entry);
      stray := Some(entry);
    } else if !ok {
      assert dir.entries == entries;
    }
  }

  predicate SealableAt(w: World, entries: map<Name, Tree>, names: seq<Name>, i: nat) {
    i < |names| && names[i] in entries && Sealable(w, entries[names[i]])
  }

  ghost predicate AllSealable(w: World, entries: map<Name, Tree>, names: seq<Name>, k: nat) {
    forall i {:trigger SealableAt(w, entries, names, i)} :: 0 <= i < k ==> SealableAt(w, entries, names, i)
  }

  lemma AllSealableMore(w: World, entries: map<Name, Tree>, names: seq<Name>, k: nat)
    requires AllSealable(w, entries, names, k) && SealableAt(w, entries, names, k)
    ensures AllSealable(w, entries, names, k + 1)
  {
  }

  /** The log verifies under this keyring and has room for one more event. */
  ghost predicate Recordable(w: World, ring: Keyring, raw: string, action: string) {
    Appendable(w.codec, w.derivation, ring, raw, action) && HasRoom(raw)
  }

  /** The log verified with this keyring and verifies with one more event, to which
      the checkpoint has moved. */
  ghost predicate OneMoreEvent(w: World, ring: Keyring, text: string, after: Option<Keyring>, textAfter: string) {
    exists records, record ::
      && after == Some(WithCheckpoint(ring, |records| + 1, w.codec.hash(record)))
      && LogHolds(w.codec, w.derivation, Some(ring), text, records)
      && LogHolds(w.codec, w.derivation, after, textAfter, records + [record])
  }

  method AppendEvent(w: World, trail: AuditTrail, keyring: KeyringFile, newKey: Token, action: string)
    returns (ok: bool)
    requires LawfulCodec(w.codec) && keyring.content.Some?
    modifies trail, keyring
    ensures ok ==>
              OneMoreEvent(w, old(keyring.content).value, old(trail.Text()), keyring.content, trail.Text())
    ensures ok ==>
              var ring := keyring.content.value;
              && ring == WithCheckpoint(old(keyring.content).value, ring.sequence, ring.head)
              && ring.sequence > 0 && IsSha256(ring.head)
    ensures var end := trail.StepsFrom(
              w.codec, w.derivation, keyring, old(keyring.content), newKey, old(trail.Text()), true, action,
              old(keyring.operations), old(trail.operations));
            && (ok <==> end.outcome.Appended?)
            && keyring.operations == end.keyringOperations && trail.operations == end.operations
    ensures OnlyCheckpointMoved(old(keyring.content).value, keyring.content) && old(trail.Text()) <= trail.Text()
  {
    ghost var records, built, record;
    var appended;
    appended, records, built, record := trail.Append(w.codec, w.derivation, keyring, newKey, true, action);
    ok := appended.Appended?;
  }

  /** The resealing loop of rotation. If it stops, the deployment it stopped at may
      hold an abandoned temporary seal. */
  method ResealAll(
    w: World, dir: ParentDirectory, keyring: KeyringFile, names: seq<Name>, tokens: nat -> string, now: int,
    newKey: Token)
    returns (ok: bool, done: nat, ghost stray: Option<Entry>)
    requires keyring.content.Some? && Readable(w.derivation, keyring.content.value)
    requires Current(w.derivation, keyring.content.value) == Some(HistoryKey(newKey, false))
    requires SiblingNames(dir.entries, names)
    requires UnusedTokens(dir.entries, tokens)
    modifies dir, keyring
    ensures keyring.content == old(keyring.content)
    ensures done <= |names| && (ok ==> done == |names| && stray.None?)
    ensures ok ==> AllSealable(w, old(dir.entries), names, |names|)
    ensures stray.Some? ==> done < |names| && !stray.value.UnsupportedEntry?
    ensures dir.entries == Resealing(w, old(dir.entries), names, done, newKey, now, tokens, stray)
    // The first deployment whose writes do not all succeed is where it stops.
    ensures AllSealable(w, old(dir.entries), names, |names|) ==>
              && FirstSealFault(dir.fails, old(dir.operations), |names|, done)
              && (ok <==> done == |names|)
              && (stray.Some? <==> done < |names| && !dir.fails(old(dir.operations) + 3 * done))
              && SealsEnd(ok, dir.operations) == SealsSteps(dir.fails, old(dir.operations), |names|)
    ensures keyring.operations == old(keyring.operations)
  {
    ghost var before, start := dir.entries, dir.operations;
    ghost var all := AllSealable(w, before, names, |names|);
    ok, done, stray := true, 0, None;
    while ok && done < |names|
      invariant done <= |names| && (ok ==> stray.None?) && (!ok ==> done < |names|)
      invariant all ==> SealsTracked(dir.fails, start, |names|, done, ok, stray.Some?, dir.operations)
      invariant stray.Some? ==> !stray.value.UnsupportedEntry?
      invariant keyring.content == old(keyring.content) && keyring.operations == old(keyring.operations)
      invariant dir.entries == Resealing(w, before, names, done, newKey, now, tokens, stray)
      invariant AllSealable(w, before, names, done)
      decreases |names| - done, ok
    {
      ResealingSteps(w, before, names, done, newKey, now, tokens);
      ghost var operation := dir.operations;
      ok, stray := ResealOne(w, dir, keyring, names[done], tokens(done), now, newKey);
      if all {
        assert SealableAt(w, before, names, done);
        NextSeal(dir.fails, start, |names|, done, ok, stray.Some?, operation, dir.operations);
      }
      if ok {
        assert SealableAt(w, before, names, done);
        AllSealableMore(w, before, names, done);
        done := done + 1;
      }
    }
  }

  /** The first k names resealed, the next one possibly with an abandoned
      temporary seal. */
  ghost function Resealing(
    w: World, entries: map<Name, Tree>, names: seq<Name>, k: nat, key: Token, now: int,
    tokens: nat -> string, stray: Option<Entry>): map<Name, Tree>
    requires k <= |names|
  {
    var resealed := ResealedFirst(w, entries, names, k, key, now);
    if stray.Some? && k < |names| && names[k] in entries
    then resealed[names[k] := WithStray(entries[names[k]], tokens(k), stray.value)]
    else resealed
  }

  /** What one more seal attempt makes of the parent. */
  lemma ResealingSteps(
    w: World, entries: map<Name, Tree>, names: seq<Name>, i: nat, key: Token, now: int, tokens: nat -> string)
    requires SiblingNames(entries, names) && UnusedTokens(entries, tokens) && i < |names|
    ensures var name, done := names[i], Resealing(w, entries, names, i, key, now, tokens, None);
            && name in entries && name in done && done[name] == entries[name] && FreshToken(done[name], tokens(i))
            && Resealing(w, entries, names, i + 1, key, now, tokens, None)
               == done[name := Resealed(w, key, done[name], now)]
            && forall stray: Entry ::
                 Resealing(w, entries, names, i, key, now, tokens, Some(stray))
                 == done[name := WithStray(done[name], tokens(i), stray)]
  {
    ResealedFirstAt(w, entries, names, i, key, now, names[i]);
    assert FreshToken(entries[names[i]], tokens(i));
  }

  /** The seal file with its old content, restricted again. */
  function WithOldSeal(tree: Tree, content: Content): Tree {
    if SEAL_PATH in tree.entries && tree.entries[SEAL_PATH].FileEntry? then
      Sealed(tree, FileEntry(SEAL_MODE, tree.entries[SEAL_PATH].uid, tree.entries[SEAL_PATH].gid, content))
    else tree
  }

  function SealsPutBack(entries: map<Name, Tree>, names: seq<Name>, backups: seq<Content>, k: nat): map<Name, Tree>
    requires k <= |names| == |backups|
  {
    if k == 0 then entries
    else
      var rest := SealsPutBack(entries, names, backups, k - 1);
      if names[k - 1] in entries
      then rest[names[k - 1] := WithOldSeal(entries[names[k - 1]], backups[k - 1])]
      else rest
  }

  lemma {:induction false} SealsPutBackAt(
    entries: map<Name, Tree>, names: seq<Name>, backups: seq<Content>, k: nat, n: Name, i: nat)
    requires k <= |names| == |backups| && SiblingNames(entries, names) && n in entries
    ensures SealsPutBack(entries, names, backups, k).Keys == entries.Keys
    ensures (forall j :: 0 <= j < k ==> names[j] != n) ==> SealsPutBack(entries, names, backups, k)[n] == entries[n]
    ensures i < k && names[i] == n ==>
              SealsPutBack(entries, names, backups, k)[n] == WithOldSeal(entries[n], backups[i])
  {
    if k > 0 {
      SealsPutBackAt(entries, names, backups, k - 1, n, i);
      assert i < k - 1 ==> names[i] != names[k - 1];
    }
  }

  ghost predicate HaveSealFiles(entries: map<Name, Tree>, names: seq<Name>) {
    forall i :: 0 <= i < |names| ==>
      names[i] in entries && SEAL_PATH in entries[names[i]].entries && entries[names[i]].entries[SEAL_PATH].FileEntry?
  }

  /** Both writes of this many seals in a row succeed. */
  predicate SealsRewritten(fails: nat -> bool, operation: nat, n: nat)
    decreases n
  {
    n == 0 || (!fails(operation) && !fails(operation + 1) && SealsRewritten(fails, operation + 2, n - 1))
  }

  /** The same tree, every file but the seal still there and unchanged. */
  ghost predicate KeepsFiles(before: Tree, after: Tree) {
    && after == before.(entries := after.entries)
    && forall p :: p in before.entries && p != SEAL_PATH ==>
         p in after.entries && after.entries[p] == before.entries[p]
  }

  /** No other sibling changed, and of the listed ones no file but the seal. */
  ghost predicate OnlySealsChanged(before: map<Name, Tree>, after: map<Name, Tree>, names: seq<Name>) {
    && after.Keys == before.Keys
    && (forall n :: n in before && n !in names ==> after[n] == before[n])
    && (forall n :: n in names && n in before ==> KeepsFiles(before[n], after[n]))
  }

  lemma NothingChanged(entries: map<Name, Tree>, names: seq<Name>)
    ensures OnlySealsChanged(entries, entries, names)
  {
  }

  lemma SealsChangedTwice(before: map<Name, Tree>, middle: map<Name, Tree>, after: map<Name, Tree>, names: seq<Name>)
    requires OnlySealsChanged(before, middle, names) && OnlySealsChanged(middle, after, names)
    ensures OnlySealsChanged(before, after, names)
  {
    forall n | n in names && n in before ensures KeepsFiles(before[n], after[n]) {
      assert KeepsFiles(before[n], middle[n]) && KeepsFiles(middle[n], after[n]);
    }
  }

  /** Resealing, as far as it got, changes no file but seals. */
  lemma ResealingChangesSeals(
    w: World, before: map<Name, Tree>, names: seq<Name>, done: nat, key: Token, now: int,
    tokens: nat -> string, left: Option<Entry>)
    requires SiblingNames(before, names) && UnusedTokens(before, tokens) && done <= |names|
    ensures OnlySealsChanged(before, Resealing(w, before, names, done, key, now, tokens, left), names)
  {
    KeysKept(w, before, names, done, key, now);
    var resealed := ResealedFirst(w, before, names, done, key, now);
    forall n | n in before
      ensures n !in names ==> resealed[n] == before[n]
      ensures KeepsFiles(before[n], resealed[n])
    {
      ResealedFirstAt(w, before, names, done, key, now, n);
      ResealedDiffersOnly(w, key, before[n], now);
    }
    if left.Some? && done < |names| {
      assert FreshToken(before[names[done]], tokens(done));
    }
  }

  /** The undo loop after i of n seals: whether it succeeds is up to the rest. */
  ghost predicate RewriteTracked(fails: nat -> bool, start: nat, n: nat, i: nat, ok: bool, operation: nat) {
    i <= n && (SealsRewritten(fails, start, n) <==> ok && SealsRewritten(fails, operation, n - i))
  }

  lemma RewritesStep(
    fails: nat -> bool, start: nat, n: nat, i: nat, next: nat, ok: bool, operation: nat, after: nat)
    requires RewriteTracked(fails, start, n, i, true, operation) && i < n && next == i + 1
    requires ok <==> !fails(operation) && !fails(operation + 1)
    requires ok ==> after == operation + 2
    ensures RewriteTracked(fails, start, n, if ok then next else i, ok, after)
  {
  }

  lemma SealsPutBackStep(entries: map<Name, Tree>, names: seq<Name>, backups: seq<Content>, k: nat)
    requires k < |names| == |backups| && SiblingNames(entries, names)
    ensures var name, rest := names[k], SealsPutBack(entries, names, backups, k);
            && name in rest && rest[name] == entries[name]
            && SealsPutBack(entries, names, backups, k + 1) == rest[name := WithOldSeal(rest[name], backups[k])]
  {
    SealsPutBackAt(entries, names, backups, k, names[k], 0);
  }

  lemma ListedTouched(
    before: map<Name, Tree>, middle: map<Name, Tree>, after: map<Name, Tree>, names: seq<Name>, k: nat)
    requires OnlySealsChanged(before, middle, names) && k < |names| && names[k] in middle && names[k] in after
    requires after == middle[names[k] := after[names[k]]] && KeepsFiles(middle[names[k]], after[names[k]])
    ensures OnlySealsChanged(before, after, names)
  {
    var name := names[k];
    assert KeepsFiles(before[name], middle[name]) && KeepsFiles(middle[name], after[name]);
  }

  method PutSealBack(dir: ParentDirectory, name: Name, backup: Content) returns (ok: bool)
    requires name in dir.entries
    requires SEAL_PATH in dir.entries[name].entries && dir.entries[name].entries[SEAL_PATH].FileEntry?
    modifies dir
    ensures ok <==> !dir.fails(old(dir.operations)) && !dir.fails(old(dir.operations) + 1)
    ensures ok ==>
              && dir.entries == old(dir.entries)[name := WithOldSeal(old(dir.entries)[name], backup)]
              && dir.operations == old(dir.operations) + 2
    ensures name in dir.entries && dir.entries == old(dir.entries)[name := dir.entries[name]]
    ensures KeepsFiles(old(dir.entries)[name], dir.entries[name])
  {
    var tree := dir.entries[name];
    var seal := tree.entries[SEAL_PATH];
    var loose := FileEntry(seal.mode, seal.uid, seal.gid, backup);
    ok := dir.WriteEntry(name, SEAL_PATH, loose);
    if ok {
      var restricted := FileEntry(SEAL_MODE, seal.uid, seal.gid, backup);
      assert tree.entries[SEAL_PATH := loose][SEAL_PATH := restricted] == tree.entries[SEAL_PATH := restricted];
      ok := dir.WriteEntry(name, SEAL_PATH, restricted);
    }
  }

  method PutNextSealBack(
    dir: ParentDirectory, names: seq<Name>, backups: seq<Content>, k: nat, ghost before: map<Name, Tree>)
    returns (ok: bool)
    requires k < |names| == |backups| && SiblingNames(before, names) && HaveSealFiles(before, names)
    requires dir.entries == SealsPutBack(before, names, backups, k) && OnlySealsChanged(before, dir.entries, names)
    modifies dir
    ensures ok <==> !dir.fails(old(dir.operations)) && !dir.fails(old(dir.operations) + 1)
    ensures ok ==>
              dir.entries == SealsPutBack(before, names, backups, k + 1) && dir.operations == old(dir.operations) + 2
    ensures OnlySealsChanged(before, dir.entries, names)
  {
    SealsPutBackStep(before, names, backups, k);
    ghost var middle := dir.entries;
    ok := PutSealBack(dir, names[k], backups[k]);
    ListedTouched(before, middle, dir.entries, names, k);
  }

  /** The undo loop over the saved seals: rewrite the bytes, then the mode. */
  method PutSealsBack(dir: ParentDirectory, names: seq<Name>, backups: seq<Content>) returns (ok: bool)
    requires |names| == |backups| && SiblingNames(dir.entries, names) && HaveSealFiles(dir.entries, names)
    modifies dir
    ensures ok ==> dir.entries == SealsPutBack(old(dir.entries), names, backups, |names|)
    ensures ok <==> SealsRewritten(dir.fails, old(dir.operations), |names|)
    ensures OnlySealsChanged(old(dir.entries), dir.entries, names)
  {
    ghost var before, start := dir.entries, dir.operations;
    NothingChanged(before, names);
    ok := true;
    var i := 0;
    while ok && i < |names|
      invariant i <= |names| && (!ok ==> i < |names|)
      invariant ok ==> dir.entries == SealsPutBack(before, names, backups, i)
      invariant RewriteTracked(dir.fails, start, |names|, i, ok, dir.operations)
      invariant OnlySealsChanged(before, dir.entries, names)
      decreases |names| - i, ok
    {
      ghost var operation := dir.operations;
      ok := PutNextSealBack(dir, names, backups, i, before);
      RewritesStep(dir.fails, start, |names|, i, i + 1, ok, operation, dir.operations);
      if ok {
        i := i + 1;
      }
    }
  }

  function ManagedNames(ranking: seq<Ranked>): (names: seq<Name>)
    ensures |names| == |ranking| && forall i :: 0 <= i < |ranking| ==> names[i] == Previous(ranking[i].token)
  {
    if ranking == [] then [] else [Previous(ranking[0].token)] + ManagedNames(ranking[1..])
  }

  /** The managed siblings, newest first. */
  function ManagedSiblings(w: World, ring: Option<Keyring>, entries: map<Name, Tree>): seq<Name> {
    ManagedNames(Inventory(w, ring, entries))
  }

  lemma ManagedSiblingsFacts(w: World, ring: Option<Keyring>, entries: map<Name, Tree>)
    ensures SiblingNames(entries, ManagedSiblings(w, ring, entries))
    ensures forall n :: n in ManagedSiblings(w, ring, entries) <==>
              n in entries && n.Previous? && Verifies(w, ring, entries[n])
  {
    InventoryFacts(w, ring, entries);
    InventoryDistinct(w, ring, entries);
    var ranking := Inventory(w, ring, entries);
    var names := ManagedNames(ranking);
    forall i | 0 <= i < |names| ensures names[i] in entries && Verifies(w, ring, entries[names[i]]) {
      assert ranking[i] in ranking;
    }
    forall n | n in entries && n.Previous? && Verifies(w, ring, entries[n]) ensures n in names {
      var r := RankOf(w, n, entries[n]);
      assert r in Managed(w, ring, entries);
      var i :| 0 <= i < |ranking| && ranking[i] == r;
      assert names[i] == n;
    }
  }

  ghost predicate NamesVerify(w: World, ring: Option<Keyring>, entries: map<Name, Tree>, names: seq<Name>) {
    forall n :: n in names ==> n in entries && Verifies(w, ring, entries[n])
  }

  lemma ManagedReady(w: World, ring: Option<Keyring>, entries: map<Name, Tree>, firstKey: Token)
    ensures var names := ManagedSiblings(w, ring, entries);
            && SiblingNames(entries, names) && HaveSealFiles(entries, names)
            && NamesVerify(w, Some(StartingRing(w, ring, firstKey)), entries, names)
  {
    ManagedSiblingsFacts(w, ring, entries);
    var names := ManagedSiblings(w, ring, entries);
    forall i | 0 <= i < |names| ensures Verifies(w, ring, entries[names[i]]) {
      assert names[i] in names;
    }
  }

  /** The bytes of each managed seal. */
  function SealContents(entries: map<Name, Tree>, names: seq<Name>): (contents: seq<Content>)
    requires HaveSealFiles(entries, names)
    ensures |contents| == |names|
    ensures forall i :: 0 <= i < |names| ==> contents[i] == entries[names[i]].entries[SEAL_PATH].content
  {
    if names == [] then []
    else [entries[names[0]].entries[SEAL_PATH].content] + SealContents(entries, names[1..])
  }

  /** One deployment after resealing was undone: it verifies with the old keyring
      again, unless a temporary seal was abandoned in it - then it never does. */
  lemma PutBackVerifies(
    w: World, ring: Keyring, before: Tree, key: Token, now: int, token: string, stray: Option<Entry>, middle: Tree)
    requires CanonicalJson(w.hashing) && Verifies(w, Some(ring), before) && FreshToken(before, token)
    requires middle == before || middle == Resealed(w, key, before, now) ||
             (stray.Some? && middle == WithStray(before, token, stray.value))
    ensures var after := WithOldSeal(middle, before.entries[SEAL_PATH].content);
            && CarriesSeal(after, before.entries[SEAL_PATH].content)
            && (middle == before || middle == Resealed(w, key, before, now) ==>
                  SealDiffersOnly(before, after) && Verifies(w, Some(ring), after))
            && (stray.Some? && middle == WithStray(before, token, stray.value) ==>
                  (Verifies(w, Some(ring), after) ==> StreamsCollide(w.hashing, before, after)))
  {
    TemporarySealDiffers(token);
    ResealedDiffersOnly(w, key, before, now);
    var content := before.entries[SEAL_PATH].content;
    var after := WithOldSeal(middle, content);
    var entry := FileEntry(SEAL_MODE, middle.entries[SEAL_PATH].uid, middle.entries[SEAL_PATH].gid, content);
    SealedCovered(middle, entry);
    if middle == before || middle == Resealed(w, key, before, now) {
      RestoredSealVerifies(w, ring, before, after);
    } else {
      var clean := Sealed(before, entry);
      SealedCovered(before, entry);
      RestoredSealVerifies(w, ring, before, clean);
      assert after == WithStray(clean, token, stray.value);
      StrayBreaksSeal(w, ring, clean, token, stray.value);
    }
  }

  /** No tree changed but for its seal file, and a listed deployment verifies exactly
      when its new seal is below the size limit of the verifier. */
  ghost predicate AllResealed(
    w: World, ring: Option<Keyring>, before: map<Name, Tree>, after: map<Name, Tree>, names: seq<Name>,
    key: Token, now: int)
  {
    && after.Keys == before.Keys
    && (forall n :: n in before ==> SealDiffersOnly(before[n], after[n]))
    && (forall n :: n in before && n !in names ==> after[n] == before[n])
    && (forall n :: n in names ==>
          && n in after && Attested(w, before[n])
          && (Verifies(w, ring, after[n]) <==> SealFits(w, key, before[n], now)))
  }

  /** What the undo leaves of one listed deployment: its old seal, and a tree that
      verifies again - unless a temporary seal was abandoned in it. */
  ghost predicate PutBackSound(
    w: World, ring: Keyring, before: map<Name, Tree>, after: map<Name, Tree>, n: Name, stray: Option<Name>)
  {
    && n in before && n in after && SEAL_PATH in before[n].entries && before[n].entries[SEAL_PATH].FileEntry?
    && CarriesSeal(after[n], before[n].entries[SEAL_PATH].content)
    && (Some(n) != stray ==> SealDiffersOnly(before[n], after[n]) && Verifies(w, Some(ring), after[n]))
    && (Some(n) == stray ==> (Verifies(w, Some(ring), after[n]) ==> StreamsCollide(w.hashing, before[n], after[n])))
  }

  /** Every listed deployment is put back, and no other changed. */
  ghost predicate SealsReverted(
    w: World, ring: Keyring, before: map<Name, Tree>, after: map<Name, Tree>, names: seq<Name>, stray: Option<Name>)
  {
    && after.Keys == before.Keys
    && (forall n :: n in before && n !in names ==> after[n] == before[n])
    && (forall i :: 0 <= i < |names| ==> PutBackSound(w, ring, before, after, names[i], stray))
    && (stray.Some? ==> stray.value in names)
  }

  lemma RotationVerifies(
    w: World, ring: Keyring, before: map<Name, Tree>, names: seq<Name>, key: Token, now: int,
    sequence: nat, head: Token)
    requires Readable(w.derivation, ring) && Current(w.derivation, ring) == Some(HistoryKey(key, false))
    requires sequence > 0 && IsSha256(head)
    requires SiblingNames(before, names)
    requires AllSealable(w, before, names, |names|)
    ensures AllResealed(
              w, Some(WithCheckpoint(ring, sequence, head)), before,
              ResealedFirst(w, before, names, |names|, key, now), names, key, now)
  {
    var after := ResealedFirst(w, before, names, |names|, key, now);
    KeysKept(w, before, names, |names|, key, now);
    forall n | n in before
      ensures SealDiffersOnly(before[n], after[n])
      ensures n !in names ==> after[n] == before[n]
      ensures n in names ==>
                && Attested(w, before[n])
                && (Verifies(w, Some(WithCheckpoint(ring, sequence, head)), after[n]) <==>
                      SealFits(w, key, before[n], now))
    {
      ResealedFirstAt(w, before, names, |names|, key, now, n);
      ResealedDiffersOnly(w, key, before[n], now);
      if n in names {
        var i :| 0 <= i < |names| && names[i] == n;
        assert SealableAt(w, before, names, i);
        SealThenVerify(w, ring, before[n], key, now);
        VerifiesIgnoresCheckpoint(w, ring, sequence, head, after[n]);
      }
    }
  }

  lemma {:induction false} KeysKept(w: World, entries: map<Name, Tree>, names: seq<Name>, k: nat, key: Token, now: int)
    requires k <= |names| && SiblingNames(entries, names)
    ensures ResealedFirst(w, entries, names, k, key, now).Keys == entries.Keys
  {
    if k > 0 {
      KeysKept(w, entries, names, k - 1, key, now);
    }
  }

  const ROTATED: string := "history_key_rotated"
  const RESTORED: string := "history_keyring_restored"

  datatype RotationOutcome =
    | RotationDone
    | RotationRefused
    | RotatedButUnsealed
    | RotationUndone
    | RotationUndoFailed

  /** The listed deployments are sealed anew under the new current key; the log
      verified with the rotated keyring, old-key events included, and verifies with
      one more event, to which the checkpoint has moved. */
  ghost predicate RotationComplete(
    w: World, rotated: Keyring, newKey: Token, text: string, before: map<Name, Tree>,
    ring: Option<Keyring>, textAfter: string, after: map<Name, Tree>, names: seq<Name>, now: int)
  {
    && Current(w.derivation, rotated) == Some(HistoryKey(newKey, false))
    && AllResealed(w, ring, before, after, names, newKey, now)
    && OneMoreEvent(w, rotated, text, ring, textAfter)
  }

  /** Whether a guarded block succeeds, and the operations of keyring, directory and
      log that come after it. */
  datatype GuardEnd = GuardEnd(ok: bool, keyringOperation: nat, dirOperation: nat, trailOperation: nat)

  /** The guarded block of rotation: n seals, then the audit event. */
  ghost function RotationSteps(
    w: World, dir: ParentDirectory, trail: AuditTrail, keyring: KeyringFile, rotated: Keyring, newKey: Token,
    text: string, n: nat, start: GuardEnd): GuardEnd
  {
    var seals := SealsSteps(dir.fails, start.dirOperation, n);
    if !seals.ok then GuardEnd(false, start.keyringOperation, seals.operations, start.trailOperation)
    else
      var end := trail.StepsFrom(
                   w.codec, w.derivation, keyring, Some(rotated), newKey, text, true, ROTATED,
                   start.keyringOperation, start.trailOperation);
      GuardEnd(end.outcome.Appended?, end.keyringOperations, seals.operations, end.operations)
  }

  /** Every write of the undo after it succeeds. */
  predicate UndoSucceeds(
    dir: ParentDirectory, trail: AuditTrail, keyring: KeyringFile, previousRing: Option<Keyring>,
    previousLog: Option<string>, n: nat, end: GuardEnd)
  {
    && PutsBack(keyring.fails, end.keyringOperation, previousRing)
    && SealsRewritten(dir.fails, end.dirOperation, n)
    && RewritesLog(trail.fails, end.trailOperation, previousLog)
  }

  /** The steps of the guarded block, and if it stops those of its undo, decide. */
  ghost predicate RotationDecided(
    w: World, dir: ParentDirectory, trail: AuditTrail, keyring: KeyringFile, rotated: Keyring, newKey: Token,
    text: string, n: nat, start: GuardEnd, previousRing: Option<Keyring>, previousLog: Option<string>,
    outcome: RotationOutcome)
  {
    var end := RotationSteps(w, dir, trail, keyring, rotated, newKey, text, n, start);
    if end.ok then outcome.RotationDone?
    else if UndoSucceeds(dir, trail, keyring, previousRing, previousLog, n, end) then outcome.RotationUndone?
    else outcome.RotationUndoFailed?
  }

  ghost predicate SucceedsFrom(fails: nat -> bool, operation: nat) {
    forall j :: operation <= j ==> !fails(j)
  }

  lemma {:induction false} RewritesFrom(fails: nat -> bool, operation: nat, n: nat)
    requires SucceedsFrom(fails, operation)
    ensures SealsRewritten(fails, operation, n)
    decreases n
  {
    if n > 0 {
      RewritesFrom(fails, operation + 2, n - 1);
    }
  }

  /** Whatever stopped the guarded block: an undo that fails met a failing operation
      after that one. */
  lemma FailedUndoMetFault(
    dir: ParentDirectory, trail: AuditTrail, keyring: KeyringFile, previousRing: Option<Keyring>,
    previousLog: Option<string>, n: nat, end: GuardEnd)
    requires !UndoSucceeds(dir, trail, keyring, previousRing, previousLog, n, end)
    ensures || (exists j :: end.keyringOperation <= j && keyring.fails(j))
            || (exists j :: end.dirOperation <= j && dir.fails(j))
            || (exists j :: end.trailOperation <= j && trail.fails(j))
  {
    if SucceedsFrom(dir.fails, end.dirOperation) {
      RewritesFrom(dir.fails, end.dirOperation, n);
    }
  }

  lemma {:induction false} SealsStopAt(fails: nat -> bool, operation: nat, n: nat, k: nat)
    requires forall j :: fails(j) <==> j == k
    requires operation <= k < operation + 3 * n
    ensures SealsSteps(fails, operation, n) == SealsEnd(false, k + 1)
    decreases n
  {
    if operation + 3 <= k {
      SealsStopAt(fails, operation + 3, n - 1, k);
    }
  }

  /** If a single seal write fails and nothing else, the rotation stops there and its
      undo completes. */
  lemma OneSealFaultIsUndone(
    w: World, dir: ParentDirectory, trail: AuditTrail, keyring: KeyringFile, rotated: Keyring, newKey: Token,
    text: string, n: nat, start: GuardEnd, previousRing: Option<Keyring>, previousLog: Option<string>, k: nat)
    requires forall j :: dir.fails(j) <==> j == k
    requires start.dirOperation <= k < start.dirOperation + 3 * n
    requires Reliable(trail.fails) && Reliable(keyring.fails)
    ensures var end := RotationSteps(w, dir, trail, keyring, rotated, newKey, text, n, start);
            !end.ok && UndoSucceeds(dir, trail, keyring, previousRing, previousLog, n, end)
  {
    SealsStopAt(dir.fails, start.dirOperation, n, k);
    RewritesFrom(dir.fails, k + 1, n);
  }

  lemma {:induction false} ReliableSeals(fails: nat -> bool, operation: nat, n: nat)
    requires Reliable(fails)
    ensures SealsSteps(fails, operation, n).ok
    decreases n
  {
    if n > 0 {
      ReliableSeals(fails, operation + 3, n - 1);
    }
  }

  /** When nothing fails, the room in the log decides, and an undo completes. */
  lemma ReliableRotation(
    w: World, dir: ParentDirectory, trail: AuditTrail, keyring: KeyringFile, rotated: Keyring, newKey: Token,
    text: string, n: nat, start: GuardEnd, previousRing: Option<Keyring>, previousLog: Option<string>)
    requires Reliable(dir.fails) && Reliable(trail.fails) && Reliable(keyring.fails)
    ensures var end := RotationSteps(w, dir, trail, keyring, rotated, newKey, text, n, start);
            && (end.ok <==> Recordable(w, rotated, text, ROTATED))
            && UndoSucceeds(dir, trail, keyring, previousRing, previousLog, n, end)
  {
    ReliableSeals(dir.fails, start.dirOperation, n);
    var end := RotationSteps(w, dir, trail, keyring, rotated, newKey, text, n, start);
    RewritesFrom(dir.fails, end.dirOperation, n);
    ReliableAppend(
      w.codec, w.derivation, Some(rotated), newKey, text, true, ROTATED, keyring.fails, start.keyringOperation,
      trail.fails, trail.chunks, start.trailOperation);
  }

  /** The keyring that rotation starts from: a missing one is created first. */
  function StartingRing(w: World, ring: Option<Keyring>, firstKey: Token): Keyring {
    if ring.Some? then ring.value else NewKeyring(w.derivation, firstKey)
  }

  /** The operation with which the rotated keyring is written. */
  function RotationStart(content: Option<Keyring>, operations: nat): nat {
    operations + if content.Some? then 0 else 3
  }

  /** The keyring is unavailable or full, or the rotated one cannot be put in place. */
  predicate RotationBlocked(
    w: World, content: Option<Keyring>, fails: nat -> bool, operations: nat, firstKey: Token)
  {
    var start := RotationStart(content, operations);
    || !KeyAvailable(w.derivation, content, fails, operations)
    || |StartingRing(w, content, firstKey).keys| >= MAX_KEYS
    || fails(start) || fails(start + 1)
  }

  /** Once in place, restricting or syncing the rotated keyring fails. */
  predicate RotationHalts(content: Option<Keyring>, fails: nat -> bool, operations: nat) {
    var start := RotationStart(content, operations);
    fails(start + 2) || fails(start + 3)
  }

  /** rotate_deployment_history_key. */
  method RotateKey(
    w: World, dir: ParentDirectory, trail: AuditTrail, keyring: KeyringFile,
    firstKey: Token, newKey: Token, tokens: nat -> string, now: int)
    returns (outcome: RotationOutcome, ghost names: seq<Name>, ghost stray: Option<Name>)
    requires LawfulCodec(w.codec) && CanonicalJson(w.hashing)
    requires FreshKey(w.derivation, StartingRing(w, keyring.content, firstKey), newKey)
    requires UnusedTokens(dir.entries, tokens)
    modifies dir, trail, keyring
    ensures names == ManagedSiblings(w, old(keyring.content), old(dir.entries))
    // Success: the previously managed deployments are sealed under the new current
    // key, and the audit log, old-key events included, verifies with one more.
    ensures outcome.RotationDone? ==>
              RotationComplete(
                w, Rotated(w.derivation, StartingRing(w, old(keyring.content), firstKey), newKey), newKey,
                old(trail.Text()), old(dir.entries), keyring.content, trail.Text(), dir.entries, names, now)
    // Failure inside the guarded block with completed undo: previous keyring,
    // seals and log; only a deployment with an abandoned temporary seal is lost.
    ensures outcome.RotationUndone? ==>
              && keyring.content == old(keyring.content)
              && trail.log == old(trail.log)
              && SealsReverted(
                   w, StartingRing(w, old(keyring.content), firstKey), old(dir.entries), dir.entries, names, stray)
    // Outside the guarded block: nothing happened, or the keyring alone changed -
    // and then no managed deployment verifies any more.
    ensures outcome.RotationRefused? ==>
              && KeptOrCreated(w.derivation, old(keyring.content), keyring.content, firstKey)
              && trail.log == old(trail.log) && dir.entries == old(dir.entries)
    ensures outcome.RotatedButUnsealed? ==>
              && keyring.content == Some(Rotated(w.derivation, StartingRing(w, old(keyring.content), firstKey), newKey))
              && trail.log == old(trail.log) && dir.entries == old(dir.entries)
              && forall n :: n in names ==> n in dir.entries && !Verifies(w, keyring.content, dir.entries[n])
    // Which of the four it is, and which deployment is lost, is decided by what can
    // be known before the call.
    ensures outcome.RotationRefused? <==>
              RotationBlocked(w, old(keyring.content), keyring.fails, old(keyring.operations), firstKey)
    ensures outcome.RotatedButUnsealed? <==>
              && !RotationBlocked(w, old(keyring.content), keyring.fails, old(keyring.operations), firstKey)
              && RotationHalts(old(keyring.content), keyring.fails, old(keyring.operations))
    ensures stray == if outcome.RotationRefused? || outcome.RotatedButUnsealed? then None
                     else LostDeployment(dir.fails, old(dir.operations), names)
    // Otherwise the steps of the guarded block, and then those of its undo, decide.
    ensures !outcome.RotationRefused? && !outcome.RotatedButUnsealed? ==>
              RotationDecided(
                w, dir, trail, keyring,
                Rotated(w.derivation, StartingRing(w, old(keyring.content), firstKey), newKey), newKey,
                old(trail.Text()), |names|,
                GuardEnd(
                  true, RotationStart(old(keyring.content), old(keyring.operations)) + 4, old(dir.operations),
                  old(trail.operations)),
                old(keyring.content), old(trail.log), outcome)
    // In no case is another sibling touched, a file other than a seal changed or an
    // audit event lost, and what is in the keyring is the previous one or, but for its
    // checkpoint, the rotated one.
    ensures OnlySealsChanged(old(dir.entries), dir.entries, names) && old(trail.Text()) <= trail.Text()
    ensures outcome.RotationUndoFailed? ==>
              || keyring.content == old(keyring.content)
              || OnlyCheckpointMoved(
                   Rotated(w.derivation, StartingRing(w, old(keyring.content), firstKey), newKey), keyring.content)
  {
    ghost var before := dir.entries;
    NothingChanged(before, ManagedSiblings(w, keyring.content, dir.entries));
    var siblings := ManagedSiblings(w, keyring.content, dir.entries);
    names, stray := siblings, None;
    ManagedReady(w, keyring.content, dir.entries, firstKey);
    var backups := SealContents(dir.entries, siblings);
    var previousRing, previousLog := keyring.content, trail.log;
    ghost var ring := StartingRing(w, keyring.content, firstKey);
    var started, rotated := StartRotation(w, keyring, firstKey, newKey);
    outcome := RotationRefused;
    if rotated {
      outcome, stray := FinishRotation(
        w, dir, trail, keyring, siblings, backups, ring, previousRing, previousLog, newKey, tokens, now);
    } else if started {
      outcome := RotatedButUnsealed;
      AllRejected(w, ring, before, siblings, newKey);
    }
  }

  /** Before the guarded block: create a missing keyring, then rotate it. `started`
      says that the rotated keyring is in place, `rotated` that nothing was raised. */
  method StartRotation(w: World, keyring: KeyringFile, firstKey: Token, newKey: Token)
    returns (started: bool, rotated: bool)
    requires FreshKey(w.derivation, StartingRing(w, keyring.content, firstKey), newKey)
    modifies keyring
    ensures started <==> !RotationBlocked(w, old(keyring.content), keyring.fails, old(keyring.operations), firstKey)
    ensures rotated <==> started && !RotationHalts(old(keyring.content), keyring.fails, old(keyring.operations))
    ensures !started ==> KeptOrCreated(w.derivation, old(keyring.content), keyring.content, firstKey)
    ensures started ==> keyring.operations == RotationStart(old(keyring.content), old(keyring.operations)) + 4
    ensures started ==>
              var ring := StartingRing(w, old(keyring.content), firstKey);
              && Readable(w.derivation, ring) && |ring.keys| < MAX_KEYS
              && keyring.content == Some(Rotated(w.derivation, ring, newKey))
              && Readable(w.derivation, keyring.content.value)
              && Current(w.derivation, keyring.content.value) == Some(HistoryKey(newKey, false))
  {
    var available := EnsureRing(w, keyring, firstKey);
    started, rotated := false, false;
    if available {
      started, rotated := RotateCurrent(w, keyring, newKey);
    }
  }

  method EnsureRing(w: World, keyring: KeyringFile, firstKey: Token) returns (available: bool)
    modifies keyring
    ensures available <==> KeyAvailable(w.derivation, old(keyring.content), keyring.fails, old(keyring.operations))
    ensures KeptOrCreated(w.derivation, old(keyring.content), keyring.content, firstKey)
    ensures available ==>
              && keyring.content == Some(StartingRing(w, old(keyring.content), firstKey))
              && Readable(w.derivation, keyring.content.value)
    ensures keyring.operations == RotationStart(old(keyring.content), old(keyring.operations))
  {
    var current := keyring.EnsureKey(w.derivation, firstKey);
    available := current.Some?;
  }

  method RotateCurrent(w: World, keyring: KeyringFile, newKey: Token) returns (started: bool, rotated: bool)
    requires keyring.content.Some? && Readable(w.derivation, keyring.content.value)
    requires FreshKey(w.derivation, keyring.content.value, newKey)
    modifies keyring
    ensures started <==>
              && |old(keyring.content).value.keys| < MAX_KEYS
              && !keyring.fails(old(keyring.operations)) && !keyring.fails(old(keyring.operations) + 1)
    ensures rotated <==>
              started && !keyring.fails(old(keyring.operations) + 2) && !keyring.fails(old(keyring.operations) + 3)
    ensures !started ==> keyring.content == old(keyring.content)
    ensures started ==>
              && keyring.operations == old(keyring.operations) + 4
              && keyring.content == Some(Rotated(w.derivation, old(keyring.content).value, newKey))
              && Readable(w.derivation, keyring.content.value)
              && Current(w.derivation, keyring.content.value) == Some(HistoryKey(newKey, false))
  {
    var ring := keyring.content.value;
    rotated := keyring.Rotate(w.derivation, newKey);
    started := keyring.content != Some(ring);
    if started {
      RotatedResolves(w.derivation, ring, newKey, Token(""), Token(""));
    }
  }

  /** The guarded block and its undo. */
  method FinishRotation(
    w: World, dir: ParentDirectory, trail: AuditTrail, keyring: KeyringFile, names: seq<Name>,
    backups: seq<Content>, ghost ring: Keyring, previousRing: Option<Keyring>, previousLog: Option<string>,
    newKey: Token, tokens: nat -> string, now: int)
    returns (outcome: RotationOutcome, ghost stray: Option<Name>)
    requires LawfulCodec(w.codec) && CanonicalJson(w.hashing)
    requires keyring.content.Some? && Readable(w.derivation, keyring.content.value)
    requires Current(w.derivation, keyring.content.value) == Some(HistoryKey(newKey, false))
    requires SiblingNames(dir.entries, names) && UnusedTokens(dir.entries, tokens)
    requires NamesVerify(w, Some(ring), dir.entries, names) && HaveSealFiles(dir.entries, names)
    requires backups == SealContents(dir.entries, names) && previousLog == trail.log
    modifies dir, trail, keyring
    ensures outcome.RotationDone? || outcome.RotationUndone? || outcome.RotationUndoFailed?
    ensures outcome.RotationDone? ==>
              RotationComplete(
                w, old(keyring.content).value, newKey, old(trail.Text()), old(dir.entries),
                keyring.content, trail.Text(), dir.entries, names, now)
    ensures outcome.RotationUndone? ==>
              && keyring.content == previousRing
              && trail.log == previousLog
              && SealsReverted(w, ring, old(dir.entries), dir.entries, names, stray)
    ensures stray == LostDeployment(dir.fails, old(dir.operations), names)
    ensures RotationDecided(
              w, dir, trail, keyring, old(keyring.content).value, newKey, old(trail.Text()), |names|,
              GuardEnd(true, old(keyring.operations), old(dir.operations), old(trail.operations)), previousRing,
              previousLog, outcome)
    ensures OnlySealsChanged(old(dir.entries), dir.entries, names) && old(trail.Text()) <= trail.Text()
    ensures outcome.RotationUndoFailed? ==>
              || keyring.content == previousRing
              || OnlyCheckpointMoved(old(keyring.content).value, keyring.content)
  {
    ghost var before, rotated := dir.entries, keyring.content.value;
    SealsReplaceable(w, ring, before, names);
    ghost var done, left;
    var ok;
    ok, done, left := ResealAndRecord(w, dir, trail, keyring, names, tokens, now, newKey);
    outcome, stray := RotationDone, if left.Some? then Some(names[done]) else None;
    if ok {
      RotationVerifies(
        w, rotated, before, names, newKey, now, keyring.content.value.sequence, keyring.content.value.head);
      ResealingChangesSeals(w, before, names, done, newKey, now, tokens, left);
    } else {
      var undone := UndoReseal(
        w, dir, trail, keyring, names, backups, previousRing, previousLog, newKey, now, tokens, ring, before,
        done, left);
      outcome := if undone then RotationUndone else RotationUndoFailed;
    }
  }

  /** The undo, from wherever the guarded block stopped. */
  method UndoReseal(
    w: World, dir: ParentDirectory, trail: AuditTrail, keyring: KeyringFile, names: seq<Name>,
    backups: seq<Content>, previousRing: Option<Keyring>, previousLog: Option<string>, newKey: Token, now: int,
    tokens: nat -> string, ghost ring: Keyring, ghost before: map<Name, Tree>, ghost done: nat,
    ghost left: Option<Entry>)
    returns (undone: bool)
    requires CanonicalJson(w.hashing)
    requires SiblingNames(before, names) && UnusedTokens(before, tokens)
    requires NamesVerify(w, Some(ring), before, names) && HaveSealFiles(before, names)
    requires backups == SealContents(before, names)
    requires done <= |names| && (left.Some? ==> done < |names|)
    requires dir.entries == Resealing(w, before, names, done, newKey, now, tokens, left)
    modifies dir, trail, keyring
    ensures undone ==>
              && keyring.content == previousRing
              && trail.log == previousLog
              && SealsReverted(
                   w, ring, before, dir.entries, names, if left.Some? then Some(names[done]) else None)
    ensures undone <==>
              UndoSucceeds(
                dir, trail, keyring, previousRing, previousLog, |names|,
                GuardEnd(false, old(keyring.operations), old(dir.operations), old(trail.operations)))
    ensures OnlySealsChanged(before, dir.entries, names)
    ensures keyring.content == old(keyring.content) || keyring.content == previousRing
    ensures trail.log == old(trail.log) || trail.log == previousLog
  {
    MiddleFacts(w, before, names, done, newKey, now, tokens, left);
    UndoneFacts(w, ring, before, names, backups, done, newKey, now, tokens, left);
    ghost var middle := dir.entries;
    undone := UndoRotation(dir, trail, keyring, names, backups, previousRing, previousLog);
    ResealingChangesSeals(w, before, names, done, newKey, now, tokens, left);
    SealsChangedTwice(before, middle, dir.entries, names);
  }

  lemma SealsReplaceable(w: World, ring: Keyring, entries: map<Name, Tree>, names: seq<Name>)
    requires NamesVerify(w, Some(ring), entries, names)
    ensures AllSealable(w, entries, names, |names|)
  {
    forall i: nat | i < |names| ensures SealableAt(w, entries, names, i) {
      assert Verifies(w, Some(ring), entries[names[i]]);
    }
  }

  lemma AllRejected(w: World, ring: Keyring, entries: map<Name, Tree>, names: seq<Name>, newKey: Token)
    requires Readable(w.derivation, ring) && |ring.keys| < MAX_KEYS && FreshKey(w.derivation, ring, newKey)
    requires NamesVerify(w, Some(ring), entries, names)
    ensures forall n :: n in names ==> !Verifies(w, Some(Rotated(w.derivation, ring, newKey)), entries[n])
  {
    forall n | n in names ensures !Verifies(w, Some(Rotated(w.derivation, ring, newKey)), entries[n]) {
      RetiredSealRejected(w, ring, entries[n], newKey);
    }
  }

  /** The guarded block of rotation. */
  method ResealAndRecord(
    w: World, dir: ParentDirectory, trail: AuditTrail, keyring: KeyringFile, names: seq<Name>,
    tokens: nat -> string, now: int, newKey: Token)
    returns (ok: bool, ghost done: nat, ghost left: Option<Entry>)
    requires LawfulCodec(w.codec)
    requires keyring.content.Some? && Readable(w.derivation, keyring.content.value)
    requires Current(w.derivation, keyring.content.value) == Some(HistoryKey(newKey, false))
    requires SiblingNames(dir.entries, names) && UnusedTokens(dir.entries, tokens)
    modifies dir, trail, keyring
    ensures done <= |names| && (left.Some? ==> done < |names|)
    ensures dir.entries == Resealing(w, old(dir.entries), names, done, newKey, now, tokens, left)
    ensures ok ==> done == |names| && left.None?
    ensures AllSealable(w, old(dir.entries), names, |names|) ==>
              LostDeployment(dir.fails, old(dir.operations), names) == if left.Some? then Some(names[done]) else None
    ensures ok ==> AllSealable(w, old(dir.entries), names, |names|)
    ensures ok ==>
              OneMoreEvent(w, old(keyring.content).value, old(trail.Text()), keyring.content, trail.Text())
    ensures AllSealable(w, old(dir.entries), names, |names|) ==>
              GuardEnd(ok, keyring.operations, dir.operations, trail.operations)
              == RotationSteps(
                   w, dir, trail, keyring, old(keyring.content).value, newKey, old(trail.Text()), |names|,
                   GuardEnd(true, old(keyring.operations), old(dir.operations), old(trail.operations)))
    ensures OnlyCheckpointMoved(old(keyring.content).value, keyring.content) && old(trail.Text()) <= trail.Text()
  {
    ghost var start, all := dir.operations, AllSealable(w, dir.entries, names, |names|);
    ok, done, left := ResealAll(w, dir, keyring, names, tokens, now, newKey);
    if all {
      LostAtFirstFault(dir.fails, start, names, done);
    }
    if ok {
      ok := AppendEvent(w, trail, keyring, newKey, ROTATED);
    }
  }

  /** The three undo writes, in order, each of which may fail. */
  method UndoRotation(
    dir: ParentDirectory, trail: AuditTrail, keyring: KeyringFile, names: seq<Name>, backups: seq<Content>,
    previousRing: Option<Keyring>, previousLog: Option<string>)
    returns (ok: bool)
    requires |names| == |backups| && SiblingNames(dir.entries, names) && HaveSealFiles(dir.entries, names)
    modifies dir, trail, keyring
    ensures ok ==>
              && keyring.content == previousRing
              && dir.entries == SealsPutBack(old(dir.entries), names, backups, |names|)
              && trail.log == previousLog
    ensures ok <==>
              UndoSucceeds(
                dir, trail, keyring, previousRing, previousLog, |names|,
                GuardEnd(false, old(keyring.operations), old(dir.operations), old(trail.operations)))
    ensures OnlySealsChanged(old(dir.entries), dir.entries, names)
    ensures keyring.content == old(keyring.content) || keyring.content == previousRing
    ensures trail.log == old(trail.log) || trail.log == previousLog
  {
    ok := keyring.PutBack(previousRing);
    if ok {
      ok := PutSealsBack(dir, names, backups);
      if ok {
        ok := trail.PutBack(previousLog);
      }
    }
  }

  /** One listed deployment when the undo starts. */
  lemma MiddleAt(
    w: World, before: map<Name, Tree>, names: seq<Name>, done: nat, key: Token, now: int,
    tokens: nat -> string, left: Option<Entry>, i: nat)
    requires SiblingNames(before, names) && HaveSealFiles(before, names) && done <= |names|
    requires left.Some? ==> done < |names|
    requires i < |names|
    ensures var middle := Resealing(w, before, names, done, key, now, tokens, left);
            && names[i] in middle
            && SEAL_PATH in middle[names[i]].entries && middle[names[i]].entries[SEAL_PATH].FileEntry?
            && (if left.Some? && i == done then middle[names[i]] == WithStray(before[names[i]], tokens(i), left.value)
                else || middle[names[i]] == before[names[i]]
                     || middle[names[i]] == Resealed(w, key, before[names[i]], now))
  {
    ResealedFirstAt(w, before, names, done, key, now, names[i]);
    TemporarySealDiffers(tokens(i));
    assert i >= done ==> forall j :: 0 <= j < done ==> names[j] != names[i];
    assert left.Some? && i < done ==> names[i] != names[done];
    assert left.Some? && i > done ==> names[done] != names[i];
  }

  /** The state in which the undo starts. */
  lemma MiddleFacts(
    w: World, before: map<Name, Tree>, names: seq<Name>, done: nat, key: Token, now: int,
    tokens: nat -> string, left: Option<Entry>)
    requires SiblingNames(before, names) && HaveSealFiles(before, names) && done <= |names|
    requires left.Some? ==> done < |names|
    ensures var middle := Resealing(w, before, names, done, key, now, tokens, left);
            && middle.Keys == before.Keys && SiblingNames(middle, names) && HaveSealFiles(middle, names)
            && (forall n :: n in before && n !in names ==> middle[n] == before[n])
  {
    var middle := Resealing(w, before, names, done, key, now, tokens, left);
    KeysKept(w, before, names, done, key, now);
    forall n | n in before && n !in names ensures middle[n] == before[n] {
      ResealedFirstAt(w, before, names, done, key, now, n);
    }
    forall i: nat | i < |names|
      ensures SEAL_PATH in middle[names[i]].entries && middle[names[i]].entries[SEAL_PATH].FileEntry?
    {
      MiddleAt(w, before, names, done, key, now, tokens, left, i);
    }
  }

  /** The state in which a completed undo ends. */
  lemma UndoneFacts(
    w: World, ring: Keyring, before: map<Name, Tree>, names: seq<Name>, backups: seq<Content>, done: nat,
    key: Token, now: int, tokens: nat -> string, left: Option<Entry>)
    requires CanonicalJson(w.hashing)
    requires SiblingNames(before, names) && HaveSealFiles(before, names) && done <= |names|
    requires NamesVerify(w, Some(ring), before, names)
    requires left.Some? ==> done < |names|
    requires UnusedTokens(before, tokens) && backups == SealContents(before, names)
    ensures SealsReverted(
              w, ring, before,
              SealsPutBack(Resealing(w, before, names, done, key, now, tokens, left), names, backups, |names|),
              names, if left.Some? then Some(names[done]) else None)
  {
    var stray := if left.Some? then Some(names[done]) else None;
    var after := SealsPutBack(Resealing(w, before, names, done, key, now, tokens, left), names, backups, |names|);
    UndoneElsewhere(w, before, names, backups, done, key, now, tokens, left);
    forall i | 0 <= i < |names| ensures PutBackSound(w, ring, before, after, names[i], stray) {
      UndoneAt(w, ring, before, names, backups, done, key, now, tokens, left, i);
    }
  }

  lemma UndoneElsewhere(
    w: World, before: map<Name, Tree>, names: seq<Name>, backups: seq<Content>, done: nat,
    key: Token, now: int, tokens: nat -> string, left: Option<Entry>)
    requires SiblingNames(before, names) && HaveSealFiles(before, names) && done <= |names| == |backups|
    requires left.Some? ==> done < |names|
    ensures var middle := Resealing(w, before, names, done, key, now, tokens, left);
            var after := SealsPutBack(middle, names, backups, |names|);
            after.Keys == before.Keys && forall n :: n in before && n !in names ==> after[n] == before[n]
  {
    var middle := Resealing(w, before, names, done, key, now, tokens, left);
    MiddleFacts(w, before, names, done, key, now, tokens, left);
    var after := SealsPutBack(middle, names, backups, |names|);
    PutBackKeys(middle, names, backups, |names|);
    forall n | n in before && n !in names ensures after[n] == before[n] {
      SealsPutBackAt(middle, names, backups, |names|, n, 0);
    }
  }

  lemma UndoneAt(
    w: World, ring: Keyring, before: map<Name, Tree>, names: seq<Name>, backups: seq<Content>, done: nat,
    key: Token, now: int, tokens: nat -> string, left: Option<Entry>, i: nat)
    requires CanonicalJson(w.hashing)
    requires SiblingNames(before, names) && HaveSealFiles(before, names) && done <= |names|
    requires i < |names| && Verifies(w, Some(ring), before[names[i]])
    requires left.Some? ==> done < |names|
    requires UnusedTokens(before, tokens) && backups == SealContents(before, names)
    ensures PutBackSound(
              w, ring, before,
              SealsPutBack(Resealing(w, before, names, done, key, now, tokens, left), names, backups, |names|),
              names[i], if left.Some? then Some(names[done]) else None)
  {
    var middle := Resealing(w, before, names, done, key, now, tokens, left);
    MiddleFacts(w, before, names, done, key, now, tokens, left);
    SealsPutBackAt(middle, names, backups, |names|, names[i], i);
    MiddleAt(w, before, names, done, key, now, tokens, left, i);
    assert FreshToken(before[names[i]], tokens(i));
    PutBackVerifies(w, ring, before[names[i]], key, now, tokens(i), left, middle[names[i]]);
    assert i < done ==> names[i] != names[if done < |names| then done else i] || done == |names|;
    assert left.Some? && i > done ==> names[done] != names[i];
  }

  lemma {:induction false} PutBackKeys(entries: map<Name, Tree>, names: seq<Name>, backups: seq<Content>, k: nat)
    requires k <= |names| == |backups| && SiblingNames(entries, names)
    ensures SealsPutBack(entries, names, backups, k).Keys == entries.Keys
  {
    if k > 0 {
      PutBackKeys(entries, names, backups, k - 1);
    }
  }

  /** (retained / seal).is_file(), which follows symbolic links. */
  predicate LooksSealed(tree: Tree, follows: string -> bool) {
    && SEAL_PATH in tree.entries
    && var entry := tree.entries[SEAL_PATH];
       entry.FileEntry? || (entry.SymlinkEntry? && follows(entry.link))
  }

  /** Every retained sibling that looks sealed verifies. */
  ghost predicate AllSealedVerify(w: World, ring: Option<Keyring>, entries: map<Name, Tree>, follows: string -> bool) {
    forall n :: n in entries && n.Previous? && LooksSealed(entries[n], follows) ==> Verifies(w, ring, entries[n])
  }

  /** A retained sibling whose seal is a link to a file stops every restore, since a
      link looks sealed and never verifies; one without a seal plays no part. */
  lemma LinkedSealBlocksRestore(
    w: World, ring: Option<Keyring>, entries: map<Name, Tree>, follows: string -> bool, n: Name)
    requires n in entries && n.Previous?
    ensures LooksSealed(entries[n], follows) && entries[n].entries[SEAL_PATH].SymlinkEntry? ==>
              !AllSealedVerify(w, ring, entries, follows)
    ensures SEAL_PATH in entries[n].entries && entries[n].entries[SEAL_PATH].SymlinkEntry? ==>
              (LooksSealed(entries[n], follows) <==> follows(entries[n].entries[SEAL_PATH].link))
    ensures SEAL_PATH !in entries[n].entries ==>
              (AllSealedVerify(w, ring, entries, follows) <==> AllSealedVerify(w, ring, entries - {n}, follows))
  {
    if SEAL_PATH in entries[n].entries && entries[n].entries[SEAL_PATH].SymlinkEntry? {
      assert !Verifies(w, ring, entries[n]);
    }
    forall m | m in entries && m != n ensures m in entries - {n} {
    }
  }

  /** The verification loop, in whatever order the directory lists its entries. */
  method VerifySealed(w: World, ring: Option<Keyring>, entries: map<Name, Tree>, follows: string -> bool)
    returns (ok: bool)
    ensures ok <==> AllSealedVerify(w, ring, entries, follows)
  {
    var rest := set n | n in entries && n.Previous? && LooksSealed(entries[n], follows);
    while rest != {}
      invariant forall n :: n in rest ==> n in entries && n.Previous? && LooksSealed(entries[n], follows)
      invariant forall n :: n in entries && n.Previous? && LooksSealed(entries[n], follows) && n !in rest ==>
                  Verifies(w, ring, entries[n])
      decreases |rest|
    {
      var n :| n in rest;
      if !Verifies(w, ring, entries[n]) {
        return false;
      }
      rest := rest - {n};
    }
    return true;
  }

  datatype RestoreOutcome = BackupRejected | RestoreDone | RestoreUndone | RestoreUndoFailed

  /** restore_deployment_history_keyring. A backup that does not parse changes
      nothing. Success: every
      sealed deployment verifies under the restored keys, and so does the log, old
      events included, with the restored checkpoint moved to its newest event.
      Failure with completed undo: the previous keyring and the previous log. */
  method RestoreKeyring(
    w: World, dir: ParentDirectory, trail: AuditTrail, keyring: KeyringFile,
    candidate: Keyring, follows: string -> bool, newKey: Token)
    returns (outcome: RestoreOutcome)
    requires LawfulCodec(w.codec)
    modifies trail, keyring
    ensures outcome.BackupRejected? <==> !Readable(w.derivation, candidate)
    ensures outcome.BackupRejected? ==> keyring.content == old(keyring.content) && trail.log == old(trail.log)
    ensures outcome.RestoreDone? ==>
              && AllSealedVerify(w, keyring.content, dir.entries, follows)
              && OneMoreEvent(w, candidate, old(trail.Text()), keyring.content, trail.Text())
    ensures outcome.RestoreUndone? ==> keyring.content == old(keyring.content) && trail.log == old(trail.log)
    // The steps of the guarded block, and then those of its undo, decide.
    ensures Readable(w.derivation, candidate) ==>
              var end := RestoreSteps(
                w, dir.entries, trail, keyring, candidate, follows, newKey, old(trail.Text()),
                old(keyring.operations), old(trail.operations));
              && (outcome.RestoreDone? <==> end.ok)
              && (outcome.RestoreUndone? <==>
                    && !end.ok
                    && RestoresRaw(keyring.fails, end.keyringOperation, old(keyring.content).Some?)
                    && RestoresRaw(trail.fails, end.trailOperation, old(trail.log).Some?))
    ensures old(trail.Text()) <= trail.Text()
    ensures outcome.RestoreUndoFailed? ==>
              keyring.content == old(keyring.content) || OnlyCheckpointMoved(candidate, keyring.content)
  {
    if !Readable(w.derivation, candidate) {
      return BackupRejected;
    }
    var previousRing, previousLog := keyring.content, trail.log;
    var ok := InstallKeyring(w, dir, trail, keyring, candidate, follows, newKey);
    if ok {
      return RestoreDone;
    }
    ok := keyring.RestoreRaw(previousRing);
    if ok {
      ok := trail.RestoreRaw(previousLog);
    }
    return if ok then RestoreUndone else RestoreUndoFailed;
  }

  ghost predicate Restorable(
    w: World, entries: map<Name, Tree>, candidate: Keyring, follows: string -> bool, raw: string)
  {
    && AllSealedVerify(w, Some(candidate), entries, follows)
    && Recordable(w, candidate, raw, RESTORED)
  }

  /** The guarded block of the restore: the backup is written, sealed deployments and
      log verify under it, and the audit event is appended. */
  ghost function RestoreSteps(
    w: World, entries: map<Name, Tree>, trail: AuditTrail, keyring: KeyringFile, candidate: Keyring,
    follows: string -> bool, newKey: Token, text: string, keyringOperation: nat, trailOperation: nat): GuardEnd
  {
    if || !WritesThrough(keyring.fails, keyringOperation)
       || !AllSealedVerify(w, Some(candidate), entries, follows)
       || !LogPasses(w.codec, w.derivation, Some(candidate), text)
    then GuardEnd(false, keyringOperation + 4, 0, trailOperation)
    else
      var end := trail.StepsFrom(
                   w.codec, w.derivation, keyring, Some(candidate), newKey, text, true, RESTORED,
                   keyringOperation + 4, trailOperation);
      GuardEnd(end.outcome.Appended?, end.keyringOperations, 0, end.operations)
  }

  /** When nothing fails, seals and log alone decide. */
  lemma ReliableRestore(
    w: World, entries: map<Name, Tree>, trail: AuditTrail, keyring: KeyringFile, candidate: Keyring,
    follows: string -> bool, newKey: Token, text: string, keyringOperation: nat, trailOperation: nat)
    requires Reliable(trail.fails) && Reliable(keyring.fails)
    ensures RestoreSteps(
              w, entries, trail, keyring, candidate, follows, newKey, text, keyringOperation, trailOperation).ok
            <==> Restorable(w, entries, candidate, follows, text)
  {
    ReliableAppend(
      w.codec, w.derivation, Some(candidate), newKey, text, true, RESTORED, keyring.fails, keyringOperation + 4,
      trail.fails, trail.chunks, trailOperation);
    AppendableMeans(w.codec, w.derivation, candidate, text, RESTORED);
  }

  /** The guarded block of the restore. */
  method InstallKeyring(
    w: World, dir: ParentDirectory, trail: AuditTrail, keyring: KeyringFile,
    candidate: Keyring, follows: string -> bool, newKey: Token)
    returns (ok: bool)
    requires LawfulCodec(w.codec) && Readable(w.derivation, candidate)
    modifies trail, keyring
    ensures ok ==>
              && AllSealedVerify(w, Some(candidate), dir.entries, follows)
              && AllSealedVerify(w, keyring.content, dir.entries, follows)
              && OneMoreEvent(w, candidate, old(trail.Text()), keyring.content, trail.Text())
    ensures GuardEnd(ok, keyring.operations, 0, trail.operations)
            == RestoreSteps(
                 w, dir.entries, trail, keyring, candidate, follows, newKey, old(trail.Text()),
                 old(keyring.operations), old(trail.operations))
    ensures old(trail.Text()) <= trail.Text()
    ensures keyring.content == old(keyring.content) || OnlyCheckpointMoved(candidate, keyring.content)
  {
    ok := keyring.WriteAtomic(candidate);
    if ok {
      assert keyring.content == Some(candidate);
      ok := VerifySealed(w, keyring.content, dir.entries, follows);
      if ok {
        var state := VerifyLines(w.codec, w.derivation, keyring.content, trail.Text());
        ok := state.Some?;
        if ok {
          ok := AppendEvent(w, trail, keyring, newKey, RESTORED);
          if ok {
            SealedVerifyKept(w, candidate, keyring.content.value, dir.entries, follows);
          }
        }
      }
    }
  }

  lemma SealedVerifyKept(
    w: World, ring: Keyring, moved: Keyring, entries: map<Name, Tree>, follows: string -> bool)
    requires AllSealedVerify(w, Some(ring), entries, follows) && Readable(w.derivation, ring)
    requires moved == WithCheckpoint(ring, moved.sequence, moved.head) && moved.sequence > 0 && IsSha256(moved.head)
    ensures AllSealedVerify(w, Some(moved), entries, follows)
  {
    forall n | n in entries && n.Previous? && LooksSealed(entries[n], follows)
      ensures Verifies(w, Some(moved), entries[n])
    {
      VerifiesIgnoresCheckpoint(w, ring, moved.sequence, moved.head, entries[n]);
    }
  }
}
