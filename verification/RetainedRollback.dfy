/** Rolling back to a retained deployment: select it by its installation id, swap
    it in, seal the displaced deployment, and record both ends in the audit log. */
module RetainedRollback {
  import opened Prelude
  import opened HashChain
  import opened DeploymentTree
  import opened TreeAttestation
  import opened HistoryKeyring
  import opened AuditLog
  import opened Activation
  import opened RetainedDeployments

  /** The managed deployments with this installation id, newest first. */
  function Matches(ranking: seq<Ranked>, installationId: Token): seq<Ranked> {
    if ranking == [] then []
    else
      var rest := Matches(ranking[1..], installationId);
      if ranking[0].installationId == installationId then [ranking[0]] + rest else rest
  }

  /** select_retained_deployment: exactly one match, or an error. */
  function SelectRetained(
    w: World, ring: Option<Keyring>, entries: map<Name, Tree>, installationId: Token): Option<Name>
  {
    var matches := Matches(Inventory(w, ring, entries), installationId);
    if |matches| == 1 then Some(Previous(matches[0].token)) else None
  }

  lemma {:induction false} MatchesFacts(ranking: seq<Ranked>, installationId: Token)
    requires DistinctTokens(ranking)
    ensures DistinctTokens(Matches(ranking, installationId))
    ensures forall r :: r in Matches(ranking, installationId) <==> r in ranking && r.installationId == installationId
  {
    if ranking != [] {
      MatchesFacts(ranking[1..], installationId);
      var rest := Matches(ranking[1..], installationId);
      forall j | 0 <= j < |rest| ensures rest[j].token != ranking[0].token {
        assert rest[j] in ranking[1..];
      }
    }
  }

  ghost predicate ManagedAs(w: World, ring: Option<Keyring>, entries: map<Name, Tree>, n: Name, installationId: Token) {
    && n in entries && n.Previous? && Verifies(w, ring, entries[n])
    && LoadIdentity(w, entries[n]).value.installationId == installationId
  }

  /** The matches are the managed deployments with the installation id. */
  lemma MatchIsManaged(
    w: World, ring: Option<Keyring>, entries: map<Name, Tree>, installationId: Token, r: Ranked)
    requires r in Matches(Inventory(w, ring, entries), installationId)
    ensures ManagedAs(w, ring, entries, Previous(r.token), installationId)
  {
    InventoryFacts(w, ring, entries);
    InventoryDistinct(w, ring, entries);
    MatchesFacts(Inventory(w, ring, entries), installationId);
  }

  lemma ManagedIsMatch(w: World, ring: Option<Keyring>, entries: map<Name, Tree>, installationId: Token, m: Name)
    requires ManagedAs(w, ring, entries, m, installationId)
    ensures exists r :: r in Matches(Inventory(w, ring, entries), installationId) && Previous(r.token) == m
  {
    InventoryFacts(w, ring, entries);
    InventoryDistinct(w, ring, entries);
    MatchesFacts(Inventory(w, ring, entries), installationId);
    assert RankOf(w, m, entries[m]) in Managed(w, ring, entries);
  }

  lemma MatchesDistinct(w: World, ring: Option<Keyring>, entries: map<Name, Tree>, installationId: Token)
    ensures DistinctTokens(Matches(Inventory(w, ring, entries), installationId))
  {
    InventoryDistinct(w, ring, entries);
    MatchesFacts(Inventory(w, ring, entries), installationId);
  }

  /** No other managed deployment has that installation id. */
  ghost predicate OnlyManagedAs(
    w: World, ring: Option<Keyring>, entries: map<Name, Tree>, n: Name, installationId: Token)
  {
    forall m :: ManagedAs(w, ring, entries, m, installationId) ==> m == n
  }

  lemma SelectedIsOnly(
    w: World, ring: Option<Keyring>, entries: map<Name, Tree>, installationId: Token, n: Name)
    requires SelectRetained(w, ring, entries, installationId) == Some(n)
    ensures ManagedAs(w, ring, entries, n, installationId) && OnlyManagedAs(w, ring, entries, n, installationId)
  {
    var matches := Matches(Inventory(w, ring, entries), installationId);
    assert matches == [matches[0]];
    MatchIsManaged(w, ring, entries, installationId, matches[0]);
    forall m | ManagedAs(w, ring, entries, m, installationId) ensures m == n {
      ManagedIsMatch(w, ring, entries, installationId, m);
    }
  }

  lemma OnlyIsSelected(
    w: World, ring: Option<Keyring>, entries: map<Name, Tree>, installationId: Token, n: Name)
    requires ManagedAs(w, ring, entries, n, installationId) && OnlyManagedAs(w, ring, entries, n, installationId)
    ensures SelectRetained(w, ring, entries, installationId) == Some(n)
  {
    var matches := Matches(Inventory(w, ring, entries), installationId);
    ManagedIsMatch(w, ring, entries, installationId, n);
    MatchesDistinct(w, ring, entries, installationId);
    MatchIsManaged(w, ring, entries, installationId, matches[0]);
    if |matches| > 1 {
      MatchIsManaged(w, ring, entries, installationId, matches[1]);
    }
  }

  /** Selection finds a sibling exactly when it is the only managed deployment with
      that installation id. */
  lemma SelectsTheOnlyMatch(
    w: World, ring: Option<Keyring>, entries: map<Name, Tree>, installationId: Token, n: Name)
    ensures SelectRetained(w, ring, entries, installationId) == Some(n) <==>
              && ManagedAs(w, ring, entries, n, installationId)
              && OnlyManagedAs(w, ring, entries, n, installationId)
  {
    if SelectRetained(w, ring, entries, installationId) == Some(n) {
      SelectedIsOnly(w, ring, entries, installationId, n);
    }
    if ManagedAs(w, ring, entries, n, installationId) && OnlyManagedAs(w, ring, entries, n, installationId) {
      OnlyIsSelected(w, ring, entries, installationId, n);
    }
  }

  /** The same tree but for the root's mode, its seal and one temporary seal. */
  ghost predicate SealTouched(before: Tree, after: Tree, token: string) {
    && after == before.(mode := after.mode, entries := after.entries)
    && after.entries - {SEAL_PATH, TemporarySeal(token)} == before.entries - {SEAL_PATH, TemporarySeal(token)}
  }

  ghost predicate Descends(
    before: map<Name, Tree>, candidate: Name, verifier: Verifier, token: string, n: Name, t: Tree)
    requires n in before
  {
    || t == before[n]
    || (n == Target && SealTouched(before[n], t, token))
    || (n == candidate && verifier.edits(before[n]) == Some(t))
  }

  /** The deployments afterwards are those before, possibly under other names: none
      lost, none doubled, none changed but for seal files, the root mode of the
      displaced one, and the verifier's edits of the candidate. */
  ghost predicate DeploymentsConserved(
    before: map<Name, Tree>, after: map<Name, Tree>, candidate: Name, verifier: Verifier, token: string)
  {
    && Inodes(after) == Inodes(before) && DistinctInodes(after)
    && forall m, n :: m in after && n in before && after[m].inode == before[n].inode ==>
         Descends(before, candidate, verifier, token, n, after[m])
  }

  lemma UnchangedConserves(entries: map<Name, Tree>, candidate: Name, verifier: Verifier)
    requires DistinctInodes(entries)
    ensures Conserves(entries, entries, candidate, verifier)
  {
  }

  lemma ConservesDeployments(
    before: map<Name, Tree>, after: map<Name, Tree>, candidate: Name, verifier: Verifier, token: string)
    requires Conserves(before, after, candidate, verifier)
    ensures DeploymentsConserved(before, after, candidate, verifier, token)
  {
    forall m, n | m in after && n in before && after[m].inode == before[n].inode
      ensures Descends(before, candidate, verifier, token, n, after[m])
    {
      assert TreeKept(before, candidate, verifier, n, after[m]);
    }
  }

  /** Sealing the displaced deployment, and any renames after it, conserve too. */
  lemma SealingConserves(
    before: map<Name, Tree>, middle: map<Name, Tree>, after: map<Name, Tree>, candidate: Name, verifier: Verifier,
    token: string, spare: Name, shelf: Tree)
    requires DistinctInodes(before) && Conserves(before, middle, candidate, verifier)
    requires Target in before && spare in middle
    requires middle[spare].inode == before[Target].inode && SameUpToMode(middle[spare], before[Target])
    requires SealTouched(middle[spare], shelf, token) && SameTrees(middle[spare := shelf], after)
    ensures DeploymentsConserved(before, after, candidate, verifier, token)
  {
    var sealed := middle[spare := shelf];
    InodesOfValues(sealed);
    InodesOfValues(after);
    assert forall n :: n in middle ==> sealed[n].inode == middle[n].inode;
    forall m, n | m in after && n in before && after[m].inode == before[n].inode
      ensures Descends(before, candidate, verifier, token, n, after[m])
    {
      assert after[m] in sealed.Values;
      var k :| k in sealed && sealed[k] == after[m];
      if k == spare {
        assert n == Target;
      } else {
        assert TreeKept(before, candidate, verifier, n, middle[k]);
      }
    }
  }

  /** The two renames that undo the swap. */
  method SwapBack(dir: ParentDirectory, candidate: Name, spare: Name) returns (restored: bool)
    requires spare in dir.entries && spare.Previous? && candidate.Previous? && candidate !in dir.entries
    modifies dir
    ensures SameTrees(old(dir.entries), dir.entries)
    ensures restored ==>
              && Target in old(dir.entries)
              && dir.entries ==
                 old(dir.entries)[candidate := old(dir.entries)[Target]][Target := old(dir.entries)[spare]] - {spare}
    ensures restored <==> Target in old(dir.entries) && dir.Both(old(dir.operations))
  {
    if Target in dir.entries {
      SwappedBack(dir.entries, candidate, spare);
    }
    restored := dir.Rename(Target, candidate);
    if restored {
      restored := dir.Rename(spare, Target);
    }
  }

  /** The two renames move the trees and nothing else. */
  lemma SwappedBack(entries: map<Name, Tree>, candidate: Name, spare: Name)
    requires Target in entries && spare in entries && spare.Previous?
    requires candidate.Previous? && candidate !in entries
    ensures var first := Moved(entries, Target, candidate);
            && SameTrees(entries, first) && spare in first && Target !in first
            && SameTrees(entries, Moved(first, spare, Target))
            && Moved(first, spare, Target)
               == entries[candidate := entries[Target]][Target := entries[spare]] - {spare}
  {
    MovedConserves(entries, Target, candidate);
    MovedConserves(Moved(entries, Target, candidate), spare, Target);
  }

  /** Seal the displaced deployment; if that fails, swap the trees back. */
  method SealOrSwapBack(
    w: World, dir: ParentDirectory, keyring: KeyringFile, candidate: Name, spare: Name, token: string, now: int,
    newKey: Token)
    returns (sealed: bool, restored: bool, ghost shelf: Tree, ghost key: Token)
    requires spare in dir.entries && spare.Previous? && candidate.Previous? && candidate !in dir.entries
    requires FreshToken(dir.entries[spare], token)
    modifies dir, keyring
    ensures SealTouched(old(dir.entries)[spare], shelf, token) && shelf.mode == old(dir.entries)[spare].mode
    ensures SameTrees(old(dir.entries)[spare := shelf], dir.entries)
    ensures sealed ==>
              && dir.entries == old(dir.entries)[spare := shelf]
              && keyring.content.Some? && Readable(w.derivation, keyring.content.value)
              && Current(w.derivation, keyring.content.value) == Some(HistoryKey(key, false))
              && SealLeft(w, old(dir.entries)[spare], shelf, true, false, key, token, now)
    ensures !sealed && restored ==>
              && Target in old(dir.entries)
              && dir.entries == old(dir.entries)[candidate := old(dir.entries)[Target]][Target := shelf] - {spare}
    ensures old(keyring.content).Some? ==>
              keyring.content == old(keyring.content) && keyring.operations == old(keyring.operations)
    // The renames back start after whatever the seal attempt did.
    ensures !sealed ==>
              (restored <==>
                 && Target in old(dir.entries)
                 && dir.Both(
                      if SealAttempted(
                           w, old(dir.entries), spare, old(keyring.content), keyring.fails, old(keyring.operations))
                      then AfterSeal(dir.fails, old(dir.operations)) else old(dir.operations)))
    // Sealing is decided by what can be known before the call.
    ensures sealed <==>
              && SealAttempted(
                   w, old(dir.entries), spare, old(keyring.content), keyring.fails, old(keyring.operations))
              && SealPlaced(old(dir.entries)[spare], dir.fails, old(dir.operations))
    // So is whether a failed attempt leaves its temporary seal in the displaced tree.
    ensures !sealed ==>
              (shelf != old(dir.entries)[spare] <==>
                 && SealAttempted(
                      w, old(dir.entries), spare, old(keyring.content), keyring.fails, old(keyring.operations))
                 && SealStranded(old(dir.entries)[spare], dir.fails, old(dir.operations)))
  {
    TemporarySealDiffers(token);
    var stray;
    sealed, stray, key := SealRetained(w, dir, keyring, spare, token, now, newKey);
    restored, shelf := false, dir.entries[spare];
    assert stray ==> TemporarySeal(token) in shelf.entries;
    if !sealed {
      restored := SwapBack(dir, candidate, spare);
    }
  }

  datatype SwapOutcome =
    | NotActivated(activation: Outcome)
    | NotSealed(restored: bool)
    | Exchanged(previous: Option<Name>)

  /** The directory after the swap: the candidate's tree, as the verifier left it, at
      the target; the displaced deployment sealed under its previous name. */
  ghost predicate ExchangedState(
    w: World, before: map<Name, Tree>, after: map<Name, Tree>, candidate: Name, verifier: Verifier,
    previous: Option<Name>, key: Token, token: string, now: int)
  {
    && candidate in before && candidate !in after
    && Lookup(after, Target) == verifier.edits(before[candidate])
    && (previous.Some? <==> Target in before)
    && (previous.Some? ==>
          && previous.value !in before && previous.value.Previous? && previous.value in after
          && SealLeft(w, before[Target].(mode := PRIVATE_MODE), after[previous.value], true, false, key, token, now))
    && (forall n :: n != Target && n != candidate && Some(n) != previous ==> Lookup(after, n) == Lookup(before, n))
  }

  /** The displaced deployment, as it is to be sealed. */
  function Displaced(before: map<Name, Tree>): Tree
    requires Target in before
  {
    before[Target].(mode := PRIVATE_MODE)
  }

  /** The displaced deployment gets its seal: there is something to seal, and the
      three writes after the activation's operations succeed. */
  predicate ShelfSealed(w: World, before: map<Name, Tree>, fails: nat -> bool, operations: nat) {
    && Target in before && Attested(w, Displaced(before))
    && SealPlaced(Displaced(before), fails, operations + ActivationSteps(before))
  }

  /** Of the three writes the first succeeds and a later one does not. */
  predicate ShelfStranded(w: World, before: map<Name, Tree>, fails: nat -> bool, operations: nat) {
    && Target in before && Attested(w, Displaced(before))
    && SealStranded(Displaced(before), fails, operations + ActivationSteps(before))
  }

  /** After a seal attempt that starts at this operation and fails, the two renames
      back succeed. */
  predicate SwapsBack(
    w: World, dir: ParentDirectory, before: map<Name, Tree>, swapped: Option<Tree>, available: bool, operation: nat)
    requires Target in before
  {
    && swapped.Some?
    && dir.Both(if available && Attested(w, Displaced(before)) then AfterSeal(dir.fails, operation) else operation)
  }

  /** How an activation that gives failed trees back ends. */
  ghost function ActivationEnd(
    dir: ParentDirectory, before: map<Name, Tree>, candidate: Name, verifier: Verifier, drawn: nat, operation: nat)
    : Outcome
  {
    var end, spare := dir.TrySteps(before, candidate, verifier, drawn, operation), dir.Spare(before, drawn);
    if !Admissible(before, candidate, true, dir.safe) then Rejected
    else if end.ok then Activated(spare)
    else if dir.ActivationUndone(
              StateAt(before, candidate, spare, end.stage), spare, end.stage, candidate, true,
              dir.AfterSpare(before, drawn), end.operations)
    then RolledBack
    else RollbackFailed
  }

  /** How the swap ends, by what is known before it: the activation, then the seal of
      what it displaced, then the renames back. */
  ghost function SwapEnd(
    w: World, dir: ParentDirectory, before: map<Name, Tree>, candidate: Name, verifier: Verifier, available: bool,
    drawn: nat, operation: nat): SwapOutcome
  {
    var activation := ActivationEnd(dir, before, candidate, verifier, drawn, operation);
    if !activation.Activated? then NotActivated(activation)
    else if Target !in before || (available && ShelfSealed(w, before, dir.fails, operation)) then
      Exchanged(activation.previous)
    else
      NotSealed(
        SwapsBack(
          w, dir, before, verifier.edits(before[candidate]), available, operation + ActivationSteps(before)))
  }

  /** When nothing fails and no drawn name is taken, the verifier and the displaced
      tree decide. */
  lemma FaultlessSwap(
    w: World, dir: ParentDirectory, before: map<Name, Tree>, candidate: Name, verifier: Verifier, drawn: nat,
    operation: nat)
    requires candidate.Previous? && Admissible(before, candidate, true, dir.safe) && Reliable(dir.fails)
    requires dir.NamesFree(RetainPrevious, before) && dir.NamesFree(SetAsideFailed, before)
    ensures Decided(
              w, before, candidate, verifier, SwapEnd(w, dir, before, candidate, verifier, true, drawn, operation))
  {
    dir.ReliableTry(before, candidate, verifier, drawn, operation);
    dir.LaterSuccessUndoes(before, candidate, verifier, true, drawn, operation);
  }

  /** The directory when sealing failed and the renames were undone: the original
      tree at the target again, private, and with an abandoned temporary seal exactly
      if the seal was stranded. */
  ghost predicate SwappedBackState(
    before: map<Name, Tree>, after: map<Name, Tree>, candidate: Name, verifier: Verifier, token: string,
    stranded: bool)
  {
    && candidate in before && Target in before && Target in after
    && SealTouched(before[Target], after[Target], token)
    && after[Target].mode == PRIVATE_MODE
    && (stranded <==> after[Target] != Displaced(before))
    && candidate in after && verifier.edits(before[candidate]) == Some(after[candidate])
    && (forall n :: n != Target && n != candidate ==> Lookup(after, n) == Lookup(before, n))
  }

  ghost predicate Decided(w: World, before: map<Name, Tree>, candidate: Name, verifier: Verifier, swap: SwapOutcome)
    requires candidate in before
  {
    var displaced := Lookup(before, Target);
    && (swap == NotActivated(RolledBack) <==> !verifier.passes(before[candidate]))
    && (swap.Exchanged? <==>
          && verifier.passes(before[candidate])
          && (displaced.Some? ==> Sealable(w, displaced.value.(mode := PRIVATE_MODE))))
    && (swap.NotSealed? ==> (swap.restored <==> verifier.edits(before[candidate]).Some?))
  }

  lemma SealedOnShelf(
    w: World, before: map<Name, Tree>, candidate: Name, verifier: Verifier, spare: Name, shelf: Tree, key: Token,
    token: string, now: int)
    requires candidate in before && candidate.Previous? && Target in before
    requires spare !in before && spare.Previous?
    requires var shelved := before[Target].(mode := PRIVATE_MODE);
             SealTouched(shelved, shelf, token) && shelf.mode == PRIVATE_MODE
    ensures var swapped := StateAt(
              before, candidate, Some(spare), Swapped(PRIVATE_MODE, verifier.edits(before[candidate])));
            && spare in swapped && swapped[spare] == before[Target].(mode := PRIVATE_MODE)
            && candidate !in swapped
            && (SealLeft(w, before[Target].(mode := PRIVATE_MODE), shelf, true, false, key, token, now) ==>
                  ExchangedState(
                    w, before, swapped[spare := shelf], candidate, verifier, Some(spare), key, token, now))
            && (Target in swapped ==>
                  SwappedBackState(
                    before, swapped[candidate := swapped[Target]][Target := shelf] - {spare}, candidate,
                    verifier, token, shelf != Displaced(before)))
  {
    var swapped := StateAt(before, candidate, Some(spare), Swapped(PRIVATE_MODE, verifier.edits(before[candidate])));
    var back := if Target in swapped then swapped[candidate := swapped[Target]][Target := shelf] - {spare} else swapped;
    assert Target in swapped ==> forall n :: n != Target && n != candidate ==> Lookup(back, n) == Lookup(before, n);
  }

  /** Activate the candidate and seal what it displaced. */
  method SwapAndSeal(
    w: World, dir: ParentDirectory, keyring: KeyringFile, candidate: Name, verifier: Verifier, token: string,
    now: int, newKey: Token)
    returns (swap: SwapOutcome, ghost stage: Stage, ghost key: Token)
    requires candidate in dir.entries && candidate.Previous?
    requires Target in dir.entries ==> FreshToken(dir.entries[Target], token)
    modifies dir, keyring
    ensures swap.Exchanged? ==>
              && verifier.passes(old(dir.entries)[candidate])
              && ExchangedState(
                   w, old(dir.entries), dir.entries, candidate, verifier, swap.previous, key, token, now)
    ensures swap.Exchanged? && swap.previous.Some? ==>
              && keyring.content.Some? && Readable(w.derivation, keyring.content.value)
              && Current(w.derivation, keyring.content.value) == Some(HistoryKey(key, false))
    // Whether the displaced deployment is sealed, and whether it keeps a temporary
    // seal, is decided by what can be known before the call.
    ensures var available := KeyAvailable(
              w.derivation, old(keyring.content), keyring.fails, old(keyring.operations));
            && (swap.Exchanged? && swap.previous.Some? ==>
                  available && ShelfSealed(w, old(dir.entries), dir.fails, old(dir.operations)))
            && (swap.NotSealed? ==>
                  !(available && ShelfSealed(w, old(dir.entries), dir.fails, old(dir.operations))))
            && (swap.NotSealed? && swap.restored ==>
                  SwappedBackState(
                    old(dir.entries), dir.entries, candidate, verifier, token,
                    available && ShelfStranded(w, old(dir.entries), dir.fails, old(dir.operations))))
    ensures swap.NotActivated? ==> !swap.activation.Activated?
    ensures swap == NotActivated(Rejected) ==> dir.entries == old(dir.entries)
    ensures swap == NotActivated(RolledBack) ==> dir.entries == Restored(old(dir.entries), candidate, stage, true)
    ensures DistinctInodes(old(dir.entries)) && KeepsInode(verifier) ==>
              DeploymentsConserved(old(dir.entries), dir.entries, candidate, verifier, token)
    ensures old(keyring.content).Some? ==>
              keyring.content == old(keyring.content) && keyring.operations == old(keyring.operations)
    ensures swap == SwapEnd(
                      w, dir, old(dir.entries), candidate, verifier,
                      KeyAvailable(w.derivation, old(keyring.content), keyring.fails, old(keyring.operations)),
                      old(dir.drawn), old(dir.operations))
  {
    ghost var before := dir.entries;
    key := newKey;
    var activation;
    activation, stage := ActivateCandidate(dir, candidate, verifier, token);
    if !activation.Activated? {
      swap := NotActivated(activation);
    } else if activation.previous.Some? {
      var sealed, restored;
      sealed, restored, key := SealDisplaced(
        w, dir, keyring, before, candidate, verifier, activation.previous.value, token, now, newKey);
      swap := if sealed then Exchanged(activation.previous) else NotSealed(restored);
    } else {
      swap := Exchanged(None);
    }
  }

  /** The activation, which gives a failed candidate back to its name. */
  method ActivateCandidate(dir: ParentDirectory, candidate: Name, verifier: Verifier, ghost token: string)
    returns (activation: Outcome, ghost stage: Stage)
    requires candidate in dir.entries && candidate.Previous?
    modifies dir
    ensures activation.Rejected? ==> dir.entries == old(dir.entries)
    ensures activation.RolledBack? ==> dir.entries == Restored(old(dir.entries), candidate, stage, true)
    ensures activation.Activated? ==>
              && (activation.previous.Some? <==> Target in old(dir.entries))
              && (activation.previous.Some? ==>
                    activation.previous.value !in old(dir.entries) && activation.previous.value.Previous?)
              && verifier.passes(old(dir.entries)[candidate])
              && dir.entries == ActivatedState(old(dir.entries), candidate, activation.previous, verifier)
              && dir.operations == old(dir.operations) + ActivationSteps(old(dir.entries))
              && stage.Swapped?
    ensures DistinctInodes(old(dir.entries)) && KeepsInode(verifier) ==>
              Conserves(old(dir.entries), dir.entries, candidate, verifier) &&
              DeploymentsConserved(old(dir.entries), dir.entries, candidate, verifier, token)
    ensures activation == ActivationEnd(
                            dir, old(dir.entries), candidate, verifier, old(dir.drawn), old(dir.operations))
  {
    ghost var before := dir.entries;
    ghost var spare;
    activation, spare, stage := dir.Activate(candidate, true, verifier, true);
    if DistinctInodes(before) && KeepsInode(verifier) {
      if activation.Rejected? {
        UnchangedConserves(before, candidate, verifier);
      } else {
        ActivationConserves(before, dir.entries, candidate, spare, stage, verifier);
      }
      ConservesDeployments(before, dir.entries, candidate, verifier, token);
    }
  }

  /** The candidate at the target as the verifier left it, the old target shelved. */
  ghost function ActivatedState(
    before: map<Name, Tree>, candidate: Name, previous: Option<Name>, verifier: Verifier): map<Name, Tree>
    requires candidate in before
  {
    StateAt(before, candidate, previous, Swapped(PRIVATE_MODE, verifier.edits(before[candidate])))
  }

  /** Seal what the activation displaced, or swap the trees back. */
  method SealDisplaced(
    w: World, dir: ParentDirectory, keyring: KeyringFile, ghost before: map<Name, Tree>, candidate: Name,
    ghost verifier: Verifier, previous: Name, token: string, now: int, newKey: Token)
    returns (sealed: bool, restored: bool, ghost key: Token)
    requires candidate in before && candidate.Previous? && Target in before
    requires previous !in before && previous.Previous? && FreshToken(before[Target], token)
    requires dir.entries == ActivatedState(before, candidate, Some(previous), verifier)
    modifies dir, keyring
    ensures sealed ==>
              && ExchangedState(w, before, dir.entries, candidate, verifier, Some(previous), key, token, now)
              && keyring.content.Some? && Readable(w.derivation, keyring.content.value)
              && Current(w.derivation, keyring.content.value) == Some(HistoryKey(key, false))
    ensures var attempted := Attested(w, Displaced(before)) && KeyAvailable(
              w.derivation, old(keyring.content), keyring.fails, old(keyring.operations));
            && (sealed <==> attempted && SealPlaced(Displaced(before), dir.fails, old(dir.operations)))
            && (!sealed && restored ==>
                  SwappedBackState(
                    before, dir.entries, candidate, verifier, token,
                    attempted && SealStranded(Displaced(before), dir.fails, old(dir.operations))))
    ensures !sealed ==>
              (restored <==>
                 SwapsBack(
                   w, dir, before, verifier.edits(before[candidate]),
                   KeyAvailable(w.derivation, old(keyring.content), keyring.fails, old(keyring.operations)),
                   old(dir.operations)))
    ensures DistinctInodes(before) && KeepsInode(verifier)
            && Conserves(before, old(dir.entries), candidate, verifier) ==>
              DeploymentsConserved(before, dir.entries, candidate, verifier, token)
    ensures old(keyring.content).Some? ==>
              keyring.content == old(keyring.content) && keyring.operations == old(keyring.operations)
  {
    ghost var middle := dir.entries;
    ShelvedAt(before, candidate, previous, verifier);
    ghost var shelf;
    sealed, restored, shelf, key := SealOrSwapBack(w, dir, keyring, candidate, previous, token, now, newKey);
    SealedOnShelf(w, before, candidate, verifier, previous, shelf, key, token, now);
    if DistinctInodes(before) && KeepsInode(verifier) && Conserves(before, middle, candidate, verifier) {
      SealingConserves(before, middle, dir.entries, candidate, verifier, token, previous, shelf);
    }
  }

  lemma ShelvedAt(before: map<Name, Tree>, candidate: Name, previous: Name, verifier: Verifier)
    requires candidate in before && candidate.Previous? && Target in before
    requires previous !in before && previous.Previous?
    ensures var middle := ActivatedState(before, candidate, Some(previous), verifier);
            && previous in middle && middle[previous] == Displaced(before) && candidate !in middle
            && (Target in middle <==> verifier.edits(before[candidate]).Some?)
  {
  }

  /** The actions that a rollback records. */
  datatype RollbackEvents = RollbackEvents(started: string, completed: string, failed: string)

  const ROLLBACK_EVENTS: RollbackEvents := RollbackEvents("rollback_started", "rollback_completed", "rollback_failed")

  datatype RollbackOutcome =
    | NotSelected
    | StartUnrecorded
    | SwapFailed(swap: SwapOutcome)
    | SwapUnrecorded(previous: Option<Name>)
    | RolledBackTo(previous: Option<Name>)

  /** The candidate is at the target, and what it displaced is retained under a new
      seal. */
  ghost predicate SwapDone(
    w: World, before: map<Name, Tree>, after: map<Name, Tree>, ring: Option<Keyring>, candidate: Name,
    verifier: Verifier, previous: Option<Name>, token: string, now: int)
  {
    && candidate in before && verifier.passes(before[candidate])
    && exists key ::
         && ExchangedState(w, before, after, candidate, verifier, previous, key, token, now)
         && (previous.Some? ==>
               RetainedUnderSeal(w, ring, before[Target].(mode := PRIVATE_MODE), after[previous.value], key, now))
  }

  /** The seal is of the current key, and verifies exactly when it is below the size
      limit of the verifier. */
  ghost predicate RetainedUnderSeal(
    w: World, ring: Option<Keyring>, displaced: Tree, shelf: Tree, key: Token, now: int)
  {
    && ring.Some? && Current(w.derivation, ring.value) == Some(HistoryKey(key, false))
    && Attested(w, displaced)
    && (Verifies(w, ring, shelf) <==> SealFits(w, key, displaced, now))
  }

  /** What each outcome past the first audit event means. */
  ghost predicate SwapResult(
    w: World, before: map<Name, Tree>, after: map<Name, Tree>, ring: Option<Keyring>, candidate: Name,
    verifier: Verifier, outcome: RollbackOutcome, stage: Stage, token: string, now: int,
    sealed: bool, stranded: bool)
  {
    match outcome
    case RolledBackTo(previous) =>
      && SwapDone(w, before, after, ring, candidate, verifier, previous, token, now)
      && (previous.Some? ==> sealed)
    case SwapUnrecorded(previous) =>
      && SwapDone(w, before, after, ring, candidate, verifier, previous, token, now)
      && (previous.Some? ==> sealed)
    case SwapFailed(swap) =>
      && (swap == NotActivated(Rejected) ==> after == before)
      && (swap == NotActivated(RolledBack) ==> after == Restored(before, candidate, stage, true))
      && (swap.NotSealed? ==> !sealed)
      && (swap == NotSealed(true) ==> SwappedBackState(before, after, candidate, verifier, token, stranded))
    case _ => false
  }

  /** How a rollback whose start is recorded ends, by the end of the swap: the second
      event is tried after a completed exchange, the failure event whenever the
      rollback raises, from the state `noted`. */
  ghost predicate RollbackRecorded(
    w: World, trail: AuditTrail, keyring: KeyringFile, newKey: Token, events: RollbackEvents, swap: SwapOutcome,
    before: Started, keyringOperation: nat, trailOperation: nat, outcome: RollbackOutcome, noted: Started,
    after: Started)
  {
    var last := trail.StepsFrom(
                  w.codec, w.derivation, keyring, before.ring, newKey, before.text, true, events.completed,
                  keyringOperation, trailOperation);
    var note := trail.StepsFrom(
                  w.codec, w.derivation, keyring, noted.ring, newKey, noted.text, true, events.failed,
                  if swap.Exchanged? then last.keyringOperations else keyringOperation,
                  if swap.Exchanged? then last.operations else trailOperation);
    if swap.Exchanged? && last.outcome.Appended? then
      && outcome == RolledBackTo(swap.previous)
      && Recorded(w, before, after, events.completed)
    else
      && outcome == (if swap.Exchanged? then SwapUnrecorded(swap.previous) else SwapFailed(swap))
      && (if swap.Exchanged? then before.text <= noted.text else noted == before)
      && (note.outcome.Appended? ==> Recorded(w, noted, after, events.failed))
  }

  /** The log grew by this event and verifies. */
  ghost predicate Recorded(w: World, before: Started, after: Started, event: string) {
    Logged(w, before.text, after.text, event) && LogPasses(w.codec, w.derivation, after.ring, after.text)
  }

  /** The guarded part: swap, record the result. */
  method SwapAndRecord(
    w: World, dir: ParentDirectory, trail: AuditTrail, keyring: KeyringFile, candidate: Name,
    verifier: Verifier, token: string, now: int, events: RollbackEvents, newKey: Token)
    returns (outcome: RollbackOutcome, ghost stage: Stage, ghost noted: Started)
    requires LawfulCodec(w.codec)
    requires candidate in dir.entries && candidate.Previous?
    requires keyring.content.Some? && Readable(w.derivation, keyring.content.value)
    requires Target in dir.entries ==> FreshToken(dir.entries[Target], token)
    modifies dir, trail, keyring
    ensures SwapResult(
              w, old(dir.entries), dir.entries, keyring.content, candidate, verifier, outcome, stage, token, now,
              ShelfSealed(w, old(dir.entries), dir.fails, old(dir.operations)),
              ShelfStranded(w, old(dir.entries), dir.fails, old(dir.operations)))
    ensures RollbackRecorded(
              w, trail, keyring, newKey, events,
              SwapEnd(
                w, dir, old(dir.entries), candidate, verifier, true, old(dir.drawn), old(dir.operations)),
              Started(old(keyring.content), old(trail.Text())), old(keyring.operations), old(trail.operations),
              outcome, noted, Started(keyring.content, trail.Text()))
    ensures DistinctInodes(old(dir.entries)) && KeepsInode(verifier) ==>
              DeploymentsConserved(old(dir.entries), dir.entries, candidate, verifier, token)
  {
    ghost var before := dir.entries;
    var swap;
    ghost var key;
    swap, stage, key := SwapAndSeal(w, dir, keyring, candidate, verifier, token, now, newKey);
    ghost var after, current := dir.entries, keyring.content.value;
    outcome, noted := RecordSwap(w, trail, keyring, swap, events, newKey);
    if swap.Exchanged? && swap.previous.Some? {
      SealedVerifiesAfterwards(
        w, current, keyring.content, before[Target].(mode := PRIVATE_MODE), after[swap.previous.value], key,
        token, now);
    }
  }

  /** The events after the swap. */
  method RecordSwap(
    w: World, trail: AuditTrail, keyring: KeyringFile, swap: SwapOutcome, events: RollbackEvents, newKey: Token)
    returns (outcome: RollbackOutcome, ghost noted: Started)
    requires LawfulCodec(w.codec) && keyring.content.Some?
    modifies trail, keyring
    ensures RollbackRecorded(
              w, trail, keyring, newKey, events, swap, Started(old(keyring.content), old(trail.Text())),
              old(keyring.operations), old(trail.operations), outcome, noted,
              Started(keyring.content, trail.Text()))
    ensures OnlyCheckpointMoved(old(keyring.content).value, keyring.content)
  {
    var recorded := false;
    if swap.Exchanged? {
      recorded := RecordEvent(w, trail, keyring, newKey, events.completed);
    }
    noted := Started(keyring.content, trail.Text());
    if !recorded {
      var written := RecordEvent(w, trail, keyring, newKey, events.failed);
    }
    outcome := if !swap.Exchanged? then SwapFailed(swap)
               else if recorded then RolledBackTo(swap.previous)
               else SwapUnrecorded(swap.previous);
  }

  /** rollback_to_retained_deployment. */
  method RollBack(
    w: World, dir: ParentDirectory, trail: AuditTrail, keyring: KeyringFile, installationId: Token,
    verifier: Verifier, token: string, now: int, newKey: Token)
    returns (outcome: RollbackOutcome, ghost stage: Stage, ghost started: Started, ghost noted: Started)
    requires LawfulCodec(w.codec)
    requires Target in dir.entries ==> FreshToken(dir.entries[Target], token)
    modifies dir, trail, keyring
    ensures var selected := SelectRetained(w, old(keyring.content), old(dir.entries), installationId);
            && (outcome.NotSelected? <==> selected.None?)
            && (outcome.NotSelected? ==> trail.Text() == old(trail.Text()) && keyring.content == old(keyring.content))
            && (outcome.NotSelected? || outcome.StartUnrecorded? ==> dir.entries == old(dir.entries))
            && (!outcome.NotSelected? && !outcome.StartUnrecorded? ==>
                  SwapResult(
                    w, old(dir.entries), dir.entries, keyring.content, selected.value, verifier, outcome, stage,
                    token, now, ShelfSealed(w, old(dir.entries), dir.fails, old(dir.operations)),
                    ShelfStranded(w, old(dir.entries), dir.fails, old(dir.operations))))
    // Log, keyring, trees and the operations that fail decide how it ends and what is
    // recorded: the start, and then the completed or the failed rollback.
    ensures !outcome.NotSelected? ==>
              var first := trail.StepsFrom(
                w.codec, w.derivation, keyring, old(keyring.content), newKey, old(trail.Text()), true,
                ROLLBACK_EVENTS.started, old(keyring.operations), old(trail.operations));
              && (outcome.StartUnrecorded? <==> !first.outcome.Appended?)
              && (!outcome.StartUnrecorded? ==>
                    && Logged(w, old(trail.Text()), started.text, ROLLBACK_EVENTS.started)
                    && RollbackRecorded(
                         w, trail, keyring, newKey, ROLLBACK_EVENTS,
                         SwapEnd(
                           w, dir, old(dir.entries),
                           ChosenOrTarget(w, old(keyring.content), old(dir.entries), installationId), verifier, true,
                           old(dir.drawn), old(dir.operations)),
                         started, first.keyringOperations, first.operations, outcome, noted,
                         Started(keyring.content, trail.Text())))
    // Every outcome conserves the deployments.
    ensures DistinctInodes(old(dir.entries)) && KeepsInode(verifier) ==>
              DeploymentsConserved(
                old(dir.entries), dir.entries,
                ChosenOrTarget(w, old(keyring.content), old(dir.entries), installationId), verifier, token)
  {
    ghost var before := dir.entries;
    outcome, stage := NotSelected, Untouched;
    var selected := SelectRetained(w, keyring.content, dir.entries, installationId);
    ghost var chosen := ChosenOrTarget(w, keyring.content, before, installationId);
    if DistinctInodes(before) {
      UnchangedConserves(before, chosen, verifier);
      ConservesDeployments(before, before, chosen, verifier, token);
    }
    started := Started(keyring.content, trail.Text());
    noted := started;
    if selected.Some? {
      SelectsTheOnlyMatch(w, keyring.content, dir.entries, installationId, selected.value);
      var begun := RecordEvent(w, trail, keyring, newKey, ROLLBACK_EVENTS.started);
      outcome := StartUnrecorded;
      if begun {
        started := Started(keyring.content, trail.Text());
        outcome, stage, noted := SwapAndRecord(
          w, dir, trail, keyring, selected.value, verifier, token, now, ROLLBACK_EVENTS, newKey);
      }
    }
  }

  function ChosenOrTarget(w: World, ring: Option<Keyring>, entries: map<Name, Tree>, installationId: Token): Name {
    var selected := SelectRetained(w, ring, entries, installationId);
    if selected.Some? then selected.value else Target
  }

  /** What was sealed with the current key is still judged as it was when it was
      sealed, as the audit checkpoint moves on. */
  lemma SealedVerifiesAfterwards(
    w: World, ring: Keyring, after: Option<Keyring>, displaced: Tree, shelf: Tree, key: Token, token: string, now: int)
    requires Readable(w.derivation, ring) && Current(w.derivation, ring) == Some(HistoryKey(key, false))
    requires OnlyCheckpointMoved(ring, after)
    requires SealLeft(w, displaced, shelf, true, false, key, token, now)
    ensures RetainedUnderSeal(w, after, displaced, shelf, key, now)
  {
    SealThenVerify(w, ring, displaced, key, now);
    if after != Some(ring) {
      VerifiesIgnoresCheckpoint(w, ring, after.value.sequence, after.value.head, shelf);
    }
  }
}
