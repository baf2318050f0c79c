/** Publishing a staged deployment by renames beside the target, with rollback.

    Every rename, chmod, directory sync and removal may fail; which ones do is an
    arbitrary oracle. The history field records the parent directory after every
    change, so that what a crash can leave behind can be stated. */
module Activation {
  import opened Prelude
  import opened DeploymentTree

  /** Names in the target's parent directory. */
  datatype Name =
    | Target
    | Staging(token: nat)
    | Previous(token: nat)
    | Failed(token: nat)
    | Unrelated(text: string)

  datatype Purpose = RetainPrevious | SetAsideFailed

  const PRIVATE_MODE: nat := 448  // 0o700
  const NAME_ATTEMPTS: nat := 32

  function Sibling(purpose: Purpose, token: nat): Name {
    match purpose
    case RetainPrevious => Previous(token)
    case SetAsideFailed => Failed(token)
  }

  /** The post-activation check: it may edit or even remove the tree, then pass or
      raise. */
  datatype Verifier = Verifier(edits: Tree -> Option<Tree>, passes: Tree -> bool)

  datatype Outcome =
    | Activated(previous: Option<Name>)
    | Rejected
    | RolledBack
    | RollbackFailed

  function Moved(entries: map<Name, Tree>, from: Name, to: Name): map<Name, Tree>
    requires from in entries
  {
    (entries - {from})[to := entries[from]]
  }

  function Put(entries: map<Name, Tree>, name: Name, tree: Option<Tree>): map<Name, Tree> {
    match tree
    case None => entries - {name}
    case Some(t) => entries[name := t]
  }

  function Lookup(entries: map<Name, Tree>, name: Name): Option<Tree> {
    if name in entries then Some(entries[name]) else None
  }

  /** One file of one tree replaced or removed. */
  function WithEntry(entries: map<Name, Tree>, name: Name, path: Path, entry: Option<Entry>): map<Name, Tree>
    requires name in entries
  {
    var tree := entries[name];
    entries[name := tree.(entries := match entry
                                     case None => tree.entries - {path}
                                     case Some(e) => tree.entries[path := e])]
  }

  /** Nothing under another name is touched. */
  ghost predicate KeepsOthers(before: map<Name, Tree>, after: map<Name, Tree>, touched: set<Name>) {
    forall n :: n in before && n !in touched ==> n in after && after[n] == before[n]
  }

  lemma KeepsThrough(
    before: map<Name, Tree>, reached: map<Name, Tree>, back: map<Name, Tree>, after: map<Name, Tree>,
    staging: Name, previous: Option<Name>, stage: Stage, failed: Name)
    requires reached == StateAt(before, staging, previous, stage)
    requires KeepsOthers(reached, back, {Target, previous.GetOr(Target)})
    requires KeepsOthers(back, after, {failed})
    requires previous.Some? ==> previous.value !in before
    requires failed == Target || failed !in reached
    ensures KeepsOthers(before, after, {Target, staging})
  {
  }

  /** The deployment `tree` is at the target or under the spare name. */
  ghost predicate Keeps(entries: map<Name, Tree>, spare: Name, tree: Tree) {
    || (Target in entries && SameUpToMode(entries[Target], tree))
    || (spare in entries && SameUpToMode(entries[spare], tree))
  }

  class ParentDirectory {
    var entries: map<Name, Tree>
    var operations: nat
    var drawn: nat
    const safe: bool
    const fails: nat -> bool
    const tokens: nat -> nat
    const remnants: nat -> map<Path, Entry>
    ghost var history: seq<map<Name, Tree>>

    constructor (
      entries: map<Name, Tree>, safe: bool, fails: nat -> bool, tokens: nat -> nat,
      remnants: nat -> map<Path, Entry>)
      ensures this.entries == entries && operations == 0 && drawn == 0 && history == []
      ensures this.safe == safe && this.fails == fails && this.tokens == tokens && this.remnants == remnants
    {
      this.entries := entries;
      this.safe := safe;
      this.fails := fails;
      this.tokens := tokens;
      this.remnants := remnants;
      operations, drawn, history := 0, 0, [];
    }

    /** os.replace onto a free name. */
    method Rename(from: Name, to: Name) returns (ok: bool)
      modifies this
      ensures operations == old(operations) + 1 && drawn == old(drawn)
      ensures ok <==> !fails(old(operations)) && from in old(entries) && to !in old(entries)
      ensures ok ==> entries == Moved(old(entries), from, to) && history == old(history) + [entries]
      ensures !ok ==> entries == old(entries) && history == old(history)
    {
      ok := !fails(operations) && from in entries && to !in entries;
      operations := operations + 1;
      if ok {
        entries := Moved(entries, from, to);
        history := history + [entries];
      }
    }

    method ChangeMode(name: Name, mode: nat) returns (ok: bool)
      modifies this
      ensures operations == old(operations) + 1 && drawn == old(drawn)
      ensures ok <==> !fails(old(operations)) && name in old(entries)
      ensures ok ==> entries == old(entries)[name := old(entries)[name].(mode := mode)]
                     && history == old(history) + [entries]
      ensures !ok ==> entries == old(entries) && history == old(history)
    {
      ok := !fails(operations) && name in entries;
      operations := operations + 1;
      if ok {
        entries := entries[name := entries[name].(mode := mode)];
        history := history + [entries];
      }
    }

    method SyncDirectory() returns (ok: bool)
      modifies this`operations
      ensures operations == old(operations) + 1
      ensures ok <==> !fails(old(operations))
    {
      ok := !fails(operations);
      operations := operations + 1;
    }

    /** remove_tree: on failure some of the tree is left. */
    method RemoveTree(name: Name) returns (ok: bool)
      modifies this
      ensures operations == old(operations) + 1 && drawn == old(drawn)
      ensures ok <==> !fails(old(operations)) || name !in old(entries)
      ensures ok ==> entries == old(entries) - {name}
      ensures !ok ==> entries == old(entries)[name := old(entries)[name].(entries := remnants(old(operations)))]
      ensures history == old(history) + [entries]
    {
      ok := !fails(operations) || name !in entries;
      if ok {
        entries := entries - {name};
      } else {
        entries := entries[name := entries[name].(entries := remnants(operations))];
      }
      operations := operations + 1;
      history := history + [entries];
    }

    /** A write inside one tree. */
    method WriteEntry(name: Name, path: Path, entry: Entry) returns (ok: bool)
      requires name in entries
      modifies this
      ensures operations == old(operations) + 1 && drawn == old(drawn)
      ensures ok <==> !fails(old(operations))
      ensures ok ==> entries == WithEntry(old(entries), name, path, Some(entry)) && history == old(history) + [entries]
      ensures !ok ==> entries == old(entries) && history == old(history)
    {
      ok := !fails(operations);
      operations := operations + 1;
      if ok {
        entries := WithEntry(entries, name, path, Some(entry));
        history := history + [entries];
      }
    }

    /** A rename inside one tree, onto a name that is no directory. */
    method RenameEntry(name: Name, from: Path, to: Path) returns (ok: bool)
      requires name in entries && from in entries[name].entries && from != to
      modifies this
      ensures operations == old(operations) + 1 && drawn == old(drawn)
      ensures ok <==> !fails(old(operations)) &&
                      !(to in old(entries)[name].entries && old(entries)[name].entries[to].DirectoryEntry?)
      ensures ok ==>
                && entries == WithEntry(
                     WithEntry(old(entries), name, to, Some(old(entries)[name].entries[from])), name, from, None)
                && history == old(history) + [entries]
      ensures !ok ==> entries == old(entries) && history == old(history)
    {
      ok := !fails(operations) && !(to in entries[name].entries && entries[name].entries[to].DirectoryEntry?);
      operations := operations + 1;
      if ok {
        entries := WithEntry(WithEntry(entries, name, to, Some(entries[name].entries[from])), name, from, None);
        history := history + [entries];
      }
    }

    function Candidate(purpose: Purpose, draw: nat): Name {
      Sibling(purpose, tokens(draw))
    }

    /** No random name of this kind is taken. */
    ghost predicate NamesFree(purpose: Purpose, entries: map<Name, Tree>) {
      forall i {:trigger Candidate(purpose, i)} :: Candidate(purpose, i) !in entries
    }

    /** All 32 random names that will be drawn are taken. */
    ghost predicate DrawsTaken(purpose: Purpose, entries: map<Name, Tree>, drawn: nat) {
      forall i {:trigger Candidate(purpose, i)} :: drawn <= i < drawn + NAME_ATTEMPTS ==>
        Candidate(purpose, i) in entries
    }

    /** The first draw that gives a free name, or the limit. */
    ghost function FirstFree(purpose: Purpose, entries: map<Name, Tree>, drawn: nat, limit: nat): (i: nat)
      requires drawn <= limit
      ensures drawn <= i <= limit
      decreases limit - drawn
    {
      if drawn == limit || Candidate(purpose, drawn) !in entries then drawn
      else FirstFree(purpose, entries, drawn + 1, limit)
    }

    /** The name found after this many draws, and the draws used up then. */
    ghost function Draw(purpose: Purpose, entries: map<Name, Tree>, drawn: nat): Option<Name> {
      var i := FirstFree(purpose, entries, drawn, drawn + NAME_ATTEMPTS);
      if i == drawn + NAME_ATTEMPTS then None else Some(Candidate(purpose, i))
    }

    ghost function AfterDraw(purpose: Purpose, entries: map<Name, Tree>, drawn: nat): nat {
      var i := FirstFree(purpose, entries, drawn, drawn + NAME_ATTEMPTS);
      if i == drawn + NAME_ATTEMPTS then i else i + 1
    }

    /** A draw finds a free name unless all of them are taken. */
    lemma {:induction false} FirstFreeMeans(purpose: Purpose, entries: map<Name, Tree>, drawn: nat, limit: nat)
      requires drawn <= limit
      ensures var i := FirstFree(purpose, entries, drawn, limit);
              && (i < limit ==> Candidate(purpose, i) !in entries)
              && forall k {:trigger Candidate(purpose, k)} :: drawn <= k < i ==> Candidate(purpose, k) in entries
      decreases limit - drawn
    {
      if drawn < limit && Candidate(purpose, drawn) in entries {
        FirstFreeMeans(purpose, entries, drawn + 1, limit);
      }
    }

    lemma DrawMeans(purpose: Purpose, entries: map<Name, Tree>, drawn: nat)
      ensures var name := Draw(purpose, entries, drawn);
              && (name.None? <==> DrawsTaken(purpose, entries, drawn))
              && (name.Some? ==> name.value !in entries && exists i :: name.value == Candidate(purpose, i))
              && (NamesFree(purpose, entries) ==> name.Some?)
    {
      FirstFreeMeans(purpose, entries, drawn, drawn + NAME_ATTEMPTS);
      assert NamesFree(purpose, entries) ==> Candidate(purpose, drawn) !in entries;
    }

    /** _unique_sibling: at most 32 random names. */
    method UniqueSibling(purpose: Purpose) returns (name: Option<Name>)
      modifies this`drawn
      ensures name == Draw(purpose, entries, old(drawn)) && drawn == AfterDraw(purpose, entries, old(drawn))
      ensures name.Some? ==> name.value !in entries && exists i :: name.value == Candidate(purpose, i)
      ensures NamesFree(purpose, entries) ==> name.Some?
      ensures name.None? <==> DrawsTaken(purpose, entries, old(drawn))
    {
      DrawMeans(purpose, entries, drawn);
      ghost var limit := drawn + NAME_ATTEMPTS;
      for attempt := 0 to NAME_ATTEMPTS
        invariant drawn == old(drawn) + attempt <= limit
        invariant FirstFree(purpose, entries, old(drawn), limit) == FirstFree(purpose, entries, drawn, limit)
      {
        var candidate := Candidate(purpose, drawn);
        drawn := drawn + 1;
        if candidate !in entries {
          return Some(candidate);
        }
      }
      return None;
    }

    method RunVerification(verifier: Verifier) returns (ok: bool)
      requires Target in entries
      modifies this
      ensures operations == old(operations) && drawn == old(drawn)
      ensures ok <==> verifier.passes(old(entries)[Target])
      ensures entries == Put(old(entries), Target, verifier.edits(old(entries)[Target]))
      ensures history == old(history) + [entries]
    {
      ok := verifier.passes(entries[Target]);
      entries := Put(entries, Target, verifier.edits(entries[Target]));
      history := history + [entries];
    }

    /** Where the first three operations of the try block lead. */
    function ShelveSteps(previous: Option<Name>, mode: nat, operation: nat): TryEnd {
      if previous.None? then TryEnd(Untouched, false, operation)
      else if fails(operation) then TryEnd(Untouched, false, operation + 1)
      else if fails(operation + 1) then TryEnd(Shelved(mode), false, operation + 2)
      else TryEnd(Shelved(PRIVATE_MODE), !fails(operation + 2), operation + 3)
    }

    /** Where the rest of it leads: the staged tree, if it is still there, is moved in
        and verified. */
    function SwapSteps(shelf: Stage, staged: Option<Tree>, verifier: Verifier, operation: nat): TryEnd {
      var mode := if shelf.Untouched? then PRIVATE_MODE else shelf.mode;
      if fails(operation) || staged.None? then TryEnd(shelf, false, operation + 1)
      else if fails(operation + 1) then TryEnd(Swapped(mode, staged), false, operation + 2)
      else
        var swapped := Swapped(mode, verifier.edits(staged.value));
        if !verifier.passes(staged.value) then TryEnd(swapped, false, operation + 2)
        else TryEnd(swapped, !fails(operation + 2), operation + 3)
    }

    /** The name under which the old target is retained. */
    ghost function Spare(entries: map<Name, Tree>, drawn: nat): Option<Name> {
      if Target in entries then Draw(RetainPrevious, entries, drawn) else None
    }

    ghost function AfterSpare(entries: map<Name, Tree>, drawn: nat): nat {
      if Target in entries then AfterDraw(RetainPrevious, entries, drawn) else drawn
    }

    /** The whole try block, from what is known before the call. */
    ghost function TrySteps(
      before: map<Name, Tree>, staging: Name, verifier: Verifier, drawn: nat, operation: nat): TryEnd
    {
      if Target !in before then SwapSteps(Untouched, Lookup(before, staging), verifier, operation)
      else
        var shelf := ShelveSteps(Spare(before, drawn), before[Target].mode, operation);
        if !shelf.ok then shelf
        else SwapSteps(shelf.stage, Lookup(before - {Target}, staging), verifier, shelf.operations)
    }

    /** When nothing fails, the verifier alone decides. */
    lemma ReliableTry(before: map<Name, Tree>, staging: Name, verifier: Verifier, drawn: nat, operation: nat)
      requires Reliable(fails) && NamesFree(RetainPrevious, before) && staging in before && staging != Target
      ensures TrySteps(before, staging, verifier, drawn, operation).ok <==> verifier.passes(before[staging])
    {
      DrawMeans(RetainPrevious, before, drawn);
      assert !fails(operation) && !fails(operation + 1) && !fails(operation + 2);
    }

    /** Two operations in a row succeed. */
    predicate Both(operation: nat) {
      !fails(operation) && !fails(operation + 1)
    }

    /** The handler completes: each move it has to make, with its sync, succeeds, and
        the names it needs can be had. `Placed` says that it has to clear the target. */
    ghost predicate UndoWorks(
      reached: map<Name, Tree>, previous: Option<Name>, placed: bool, staging: Option<Name>, drawn: nat,
      operation: nat)
    {
      && MovesBack(reached, previous, placed, drawn, operation)
      && (placed ==>
            && Draw(SetAsideFailed, reached, drawn) != staging
            && Both(AfterMoves(reached, previous, placed, operation)))
    }

    /** The handler completes from this stage of the try block. */
    ghost predicate ActivationUndone(
      reached: map<Name, Tree>, spare: Option<Name>, stage: Stage, staging: Name, restoreStaging: bool, drawn: nat,
      operation: nat)
    {
      UndoWorks(
        reached, spare, stage.Swapped? && Target in reached, if restoreStaging then Some(staging) else None, drawn,
        operation)
    }

    /** Its first two moves. */
    ghost predicate MovesBack(
      reached: map<Name, Tree>, previous: Option<Name>, placed: bool, drawn: nat, operation: nat)
    {
      && (placed ==> Draw(SetAsideFailed, reached, drawn).Some? && Both(operation))
      && (previous.Some? && previous.value in reached ==> Both(if placed then operation + 2 else operation))
    }

    function AfterMoves(reached: map<Name, Tree>, previous: Option<Name>, placed: bool, operation: nat): nat {
      var middle := if placed then operation + 2 else operation;
      if previous.Some? && previous.value in reached then middle + 2 else middle
    }

    /** Whatever stopped the try block, the rollback completes if no later operation
        fails and no random name for the failed tree is taken. */
    lemma LaterSuccessUndoes(
      before: map<Name, Tree>, staging: Name, verifier: Verifier, restoreStaging: bool, drawn: nat, operation: nat)
      requires staging in before && NamesFree(SetAsideFailed, before)
      requires var end := TrySteps(before, staging, verifier, drawn, operation);
               forall j :: end.operations <= j ==> !fails(j)
      ensures var end := TrySteps(before, staging, verifier, drawn, operation);
              var spare := Spare(before, drawn);
              var reached := StateAt(before, staging, spare, end.stage);
              ActivationUndone(
                reached, spare, end.stage, staging, restoreStaging, AfterSpare(before, drawn), end.operations)
    {
      var end := TrySteps(before, staging, verifier, drawn, operation);
      var spare := Spare(before, drawn);
      var reached := StateAt(before, staging, spare, end.stage);
      var after := AfterSpare(before, drawn);
      assert Candidate(SetAsideFailed, after) !in before;
      assert Candidate(SetAsideFailed, after) !in reached;
      DrawMeans(SetAsideFailed, reached, after);
      forall i ensures Candidate(SetAsideFailed, i) != staging {
        assert Candidate(SetAsideFailed, i) !in before;
      }
    }

    /** Move the existing target to a fresh previous name and make it private. */
    method ShelveTarget() returns (ok: bool, previous: Option<Name>, ghost stage: Stage)
      requires Target in entries
      modifies this
      ensures previous.Some? ==> previous.value !in old(entries) && previous.value.Previous?
      ensures previous == Draw(RetainPrevious, old(entries), old(drawn))
              && drawn == AfterDraw(RetainPrevious, old(entries), old(drawn))
      ensures TryEnd(stage, ok, operations) == ShelveSteps(previous, old(entries)[Target].mode, old(operations))
      ensures entries == StateAt(old(entries), Target, previous, stage)
      ensures stage.Shelved? <==> !DrawsTaken(RetainPrevious, old(entries), old(drawn)) && !fails(old(operations))
      ensures Recorded(old(history), history, Some(old(entries)[Target]), previous)
    {
      ok, stage := false, Untouched;
      previous := UniqueSibling(RetainPrevious);
      if previous.None? {
        return;
      }
      var renamed := Rename(Target, previous.value);
      if !renamed {
        return;
      }
      stage := Shelved(entries[previous.value].mode);
      var changed := ChangeMode(previous.value, PRIVATE_MODE);
      if !changed {
        return;
      }
      stage := Shelved(PRIVATE_MODE);
      ok := SyncDirectory();
    }

    /** Rename the staged tree to the free target and verify it there. */
    method SwapIn(staging: Name, verifier: Verifier, ghost shelf: Stage, ghost spare: Option<Name>)
      returns (ok: bool, activated: bool, ghost stage: Stage)
      requires Target !in entries && !shelf.Swapped? && spare != Some(staging)
      modifies this
      ensures TryEnd(stage, ok, operations)
              == SwapSteps(shelf, Lookup(old(entries), staging), verifier, old(operations))
      ensures drawn == old(drawn)
      ensures activated <==> stage.Swapped?
      ensures entries == if activated then Put(old(entries) - {staging}, Target, stage.tree) else old(entries)
      ensures RecordedSpare(old(history), history, old(entries), spare)
    {
      ok, activated, stage := false, false, shelf;
      ghost var mode := if shelf.Untouched? then PRIVATE_MODE else shelf.mode;
      var published := Rename(staging, Target);
      if !published {
        return;
      }
      activated, stage := true, Swapped(mode, Some(entries[Target]));
      var synced := SyncDirectory();
      if !synced {
        return;
      }
      var verified := RunVerification(verifier);
      stage := Swapped(mode, verifier.edits(old(entries)[staging]));
      if !verified {
        return;
      }
      ok := SyncDirectory();
    }

    /** The body of activate_staged_directory's try block. */
    method Publish(staging: Name, verifier: Verifier)
      returns (ok: bool, previous: Option<Name>, activated: bool, ghost stage: Stage)
      requires staging in entries
      modifies this
      ensures TryEnd(stage, ok, operations)
              == TrySteps(old(entries), staging, verifier, old(drawn), old(operations))
      ensures previous == Spare(old(entries), old(drawn)) && drawn == AfterSpare(old(entries), old(drawn))
      ensures previous.Some? ==> Target in old(entries) && previous.value !in old(entries) && previous.value.Previous?
      ensures entries == StateAt(old(entries), staging, previous, stage)
      ensures activated <==> stage.Swapped?
      ensures Recorded(old(history), history, Lookup(old(entries), Target), previous)
    {
      previous, activated, stage := None, false, Untouched;
      ok := true;
      if Target in entries {
        ok, previous, stage := ShelveTarget();
      }
      if ok {
        ghost var shelf, shelvedHistory := entries, history;
        assert shelf == Shelf(old(entries), previous, PRIVATE_MODE);
        ok, activated, stage := SwapIn(staging, verifier, stage, previous);
        if previous.Some? {
          assert Recorded(shelvedHistory, history, Some(shelf[previous.value]), previous);
        }
      }
    }

    /** Set the tree at the target aside under a fresh failed name. */
    method SetAside() returns (ok: bool, failed: Option<Name>)
      modifies this
      ensures failed.Some? ==> Target in old(entries) && failed.value.Failed? && failed.value !in old(entries)
      ensures ok ==> (failed.Some? <==> Target in old(entries))
      ensures ok ==> entries == BroughtBack(old(entries), None, failed)
      ensures entries == old(entries) || entries == BroughtBack(old(entries), None, failed)
      ensures entries.Values == old(entries).Values
      ensures DistinctInodes(old(entries)) ==> DistinctInodes(entries)
      ensures history == old(history) || history == old(history) + [entries]
      ensures failed == if Target in old(entries) then Draw(SetAsideFailed, old(entries), old(drawn)) else None
      ensures ok <==> MovesBack(old(entries), None, Target in old(entries), old(drawn), old(operations))
      ensures ok ==> operations == AfterMoves(old(entries), None, Target in old(entries), old(operations))
    {
      ok, failed := true, None;
      if Target in entries {
        failed := UniqueSibling(SetAsideFailed);
        if failed.None? {
          return false, failed;
        }
        MovedConserves(entries, Target, failed.value);
        ok := Rename(Target, failed.value);
        if ok {
          ok := SyncDirectory();
        }
      }
    }

    /** Rename the previous tree back to the target. */
    method Reinstate(previous: Name) returns (ok: bool)
      requires previous in entries && previous != Target
      modifies this
      ensures ok <==> Target !in old(entries) && Both(old(operations))
      ensures ok ==> entries == Moved(old(entries), previous, Target) && operations == old(operations) + 2
      ensures entries == old(entries) || entries == Moved(old(entries), previous, Target)
      ensures Target in old(entries) ==> entries == old(entries)
      ensures entries.Values == old(entries).Values
      ensures DistinctInodes(old(entries)) ==> DistinctInodes(entries)
      ensures history == old(history) || history == old(history) + [entries]
    {
      if Target !in entries {
        MovedConserves(entries, previous, Target);
      }
      ok := Rename(previous, Target);
      if ok {
        ok := SyncDirectory();
      }
    }

    /** The handler's first two renames: set the failed tree aside, bring the
        previous one back. */
    method BringBack(previous: Option<Name>, activated: bool) returns (ok: bool, failed: Option<Name>)
      requires previous.Some? ==> previous.value.Previous?
      modifies this
      ensures entries.Values == old(entries).Values
      ensures DistinctInodes(old(entries)) ==> DistinctInodes(entries)
      ensures failed.Some? ==>
                activated && Target in old(entries) && failed.value.Failed? && failed.value !in old(entries)
      ensures ok ==> (failed.Some? <==> activated && Target in old(entries))
      ensures ok ==> entries == BroughtBack(old(entries), previous, failed)
      ensures KeepsOthers(old(entries), entries, {Target, previous.GetOr(Target)})
      ensures RecordedSpare(old(history), history, old(entries), previous)
      ensures !activated && (previous.Some? ==> previous.value !in old(entries)) ==> history == old(history)
      ensures failed.Some? ==> failed == Draw(SetAsideFailed, old(entries), old(drawn))
      // The handler never renames onto a target it did not place.
      ensures activated || Target !in old(entries) || (previous.Some? ==> previous.value !in old(entries)) ==>
                var placed := activated && Target in old(entries);
                && (ok <==> MovesBack(old(entries), previous, placed, old(drawn), old(operations)))
                && (ok ==> operations == AfterMoves(old(entries), previous, placed, old(operations)))
    {
      ok, failed := true, None;
      if activated {
        ok, failed := SetAside();
      }
      if ok && previous.Some? && previous.value in entries {
        ok := Reinstate(previous.value);
      }
    }

    /** The handler's last step: give the failed tree back to staging, or remove it. */
    method Dispose(failed: Name, staging: Name, restoreStaging: bool, ghost spare: Option<Name>) returns (ok: bool)
      requires failed in entries && failed != Target
      modifies this
      ensures ok ==> (restoreStaging ==> staging !in old(entries)) &&
                     entries == if restoreStaging then Moved(old(entries), failed, staging) else old(entries) - {failed}
      ensures restoreStaging ==> entries.Values == old(entries).Values
      ensures restoreStaging && DistinctInodes(old(entries)) ==> DistinctInodes(entries)
      ensures Lookup(entries, Target) == Lookup(old(entries), Target) || (restoreStaging && staging == Target)
      ensures old(history) <= history
      ensures Target in old(entries) && spare.Some? ==>
                Recorded(old(history), history, Some(old(entries)[Target]), spare)
      ensures ok <==> (restoreStaging ==> staging !in old(entries)) && Both(old(operations))
      ensures KeepsOthers(old(entries), entries, {failed})
    {
      if restoreStaging {
        if staging in entries {
          return false;
        }
        MovedConserves(entries, failed, staging);
        ok := Rename(failed, staging);
      } else {
        ok := RemoveTree(failed);
      }
      if ok {
        ok := SyncDirectory();
      }
    }

    /** The exception handler, run on whatever state the try block left. */
    method Undo(
      ghost before: map<Name, Tree>, staging: Name, previous: Option<Name>, activated: bool,
      ghost stage: Stage, restoreStaging: bool)
      returns (ok: bool)
      requires staging in before
      requires previous.Some? ==> Target in before && previous.value !in before && previous.value.Previous?
      requires stage.Shelved? ==> previous.Some?
      requires stage.Swapped? ==> (previous.Some? <==> Target in before) && staging != Target
      requires activated <==> stage.Swapped?
      requires entries == StateAt(before, staging, previous, stage)
      modifies this
      ensures ok ==> entries == Restored(before, staging, stage, restoreStaging)
      ensures Recorded(old(history), history, Lookup(before, Target), previous)
      ensures restoreStaging ==> entries.Values == old(entries).Values
      ensures restoreStaging && DistinctInodes(old(entries)) ==> DistinctInodes(entries)
      ensures KeepsOthers(before, entries, {Target, staging})
      ensures ok <==> UndoWorks(
                        old(entries), previous, activated && Target in old(entries),
                        if restoreStaging then Some(staging) else None, old(drawn), old(operations))
    {
      var failed;
      ok, failed := BringBack(previous, activated);
      ghost var broughtBack := history;
      assert Recorded(old(history), broughtBack, Lookup(before, Target), previous);
      if ok {
        UndoneIsRestored(before, staging, previous, stage, failed, restoreStaging);
      }
      ghost var restored := entries;
      if ok && failed.Some? {
        ok := Dispose(failed.value, staging, restoreStaging, previous);
        RecordedTransitive(old(history), broughtBack, history, Lookup(before, Target), previous);
      }
      KeepsThrough(before, old(entries), restored, entries, staging, previous, stage, failed.GetOr(Target));
    }

    /** The old target is not made private: it is private already, no name is found to
        retain it under, or one of the first two operations fails. */
    ghost predicate RootStaysAsItWas(entries: map<Name, Tree>, drawn: nat, operations: nat)
      requires Target in entries
    {
      || entries[Target].mode == PRIVATE_MODE
      || DrawsTaken(RetainPrevious, entries, drawn)
      || fails(operations) || fails(operations + 1)
    }

    /** The checks before the try block. */
    method CheckPaths(staging: Name, allowReplace: bool) returns (ok: bool)
      ensures ok <==> Admissible(entries, staging, allowReplace, safe)
    {
      if !safe || staging !in entries || entries[staging].kind != RealDirectory {
        return false;
      }
      if Target in entries && (entries[Target].kind != RealDirectory || !allowReplace) {
        return false;
      }
      return true;
    }

    /** activate_staged_directory. It either reports success, with the verified tree
        at the target and the old one retained; or rejects the call untouched; or
        rolls back, with everything as it was except the old root's mode bits; or
        reports that the rollback failed. In every recorded state in between the
        old deployment is at the target or under the spare name. */
    method Activate(staging: Name, allowReplace: bool, verifier: Verifier, restoreStaging: bool)
      returns (outcome: Outcome, ghost spare: Option<Name>, ghost stage: Stage)
      modifies this
      ensures outcome.Rejected? <==> !Admissible(old(entries), staging, allowReplace, safe)
      ensures outcome.Rejected? ==> entries == old(entries) && history == old(history)
      ensures outcome.Activated? ==>
                && outcome.previous == spare
                && (spare.Some? <==> Target in old(entries))
                && verifier.passes(old(entries)[staging])
                && stage == Swapped(PRIVATE_MODE, verifier.edits(old(entries)[staging]))
                && entries == StateAt(old(entries), staging, spare, stage)
                && operations == old(operations) + ActivationSteps(old(entries))
      ensures outcome.Activated? ==> drawn == AfterSpare(old(entries), old(drawn))
      ensures outcome.RolledBack? ==> entries == Restored(old(entries), staging, stage, restoreStaging)
      ensures !outcome.Rejected? && Target in old(entries) ==>
                (!stage.Untouched? <==>
                   !DrawsTaken(RetainPrevious, old(entries), old(drawn)) && !fails(old(operations)))
      ensures !outcome.Rejected? && !stage.Untouched? && Target in old(entries) ==>
                stage.mode == if fails(old(operations) + 1) then old(entries)[Target].mode else PRIVATE_MODE
      // What can be known before the call decides whether a rollback gives the
      // target back exactly as it was.
      ensures outcome.RolledBack? && Target in old(entries) ==>
                (Lookup(entries, Target) == Some(old(entries)[Target]) <==>
                   RootStaysAsItWas(old(entries), old(drawn), old(operations)))
      ensures stage.Swapped? ==>
                && staging in old(entries) && staging != Target
                && (stage.tree == Some(old(entries)[staging]) || stage.tree == verifier.edits(old(entries)[staging]))
      ensures spare.Some? ==> spare.value !in old(entries) && spare.value.Previous?
      ensures Recorded(old(history), history, Lookup(old(entries), Target), spare)
      ensures !outcome.Rejected? && restoreStaging ==>
                && staging in old(entries)
                && (stage.Shelved? ==> spare.Some?)
                && (stage.Swapped? ==> (spare.Some? <==> Target in old(entries)))
                && (spare.Some? ==> Target in old(entries))
                && SameTrees(StateAt(old(entries), staging, spare, stage), entries)
      ensures !outcome.Rejected? ==> KeepsOthers(old(entries), entries, {Target, staging})
      // How far the try block gets, whether it succeeds and whether the rollback
      // completes are decided by trees, names and the operations that fail.
      ensures !outcome.Rejected? ==>
                var end := TrySteps(old(entries), staging, verifier, old(drawn), old(operations));
                && stage == end.stage && spare == Spare(old(entries), old(drawn))
                && (outcome.Activated? <==> end.ok)
                && (outcome.RolledBack? <==>
                      !end.ok && ActivationUndone(
                        StateAt(old(entries), staging, spare, stage), spare, stage, staging, restoreStaging,
                        AfterSpare(old(entries), old(drawn)), end.operations))
    {
      outcome, spare, stage := Rejected, None, Untouched;
      var admitted := CheckPaths(staging, allowReplace);
      if admitted {
        var ok, activated, previous;
        ok, previous, activated, stage := Publish(staging, verifier);
        spare := previous;
        outcome := Activated(previous);
        DrawMeans(RetainPrevious, old(entries), old(drawn));
        if !ok {
          ghost var publishHistory := history;
          var back := Undo(old(entries), staging, previous, activated, stage, restoreStaging);
          RecordedTransitive(old(history), publishHistory, history, Lookup(old(entries), Target), spare);
          outcome := if back then RolledBack else RollbackFailed;
          if Target in old(entries) {
            RollbackRestoresTarget(old(entries), staging, stage, restoreStaging);
          }
        }
      }
    }

    /** rollback_activated_directory: remove what is at the target, bring the
        previous deployment back. */
    method RollbackActivated(previous: Option<Name>) returns (ok: bool)
      requires previous.Some? ==> previous.value.Previous?
      modifies this
      ensures ok ==>
                entries == if previous.Some? && previous.value in old(entries)
                           then Moved(old(entries), previous.value, Target)
                           else old(entries) - {Target}
      ensures RecordedSpare(old(history), history, old(entries), previous)
      ensures ok <==> UndoWorks(
                        old(entries), previous, Target in old(entries), None, old(drawn), old(operations))
    {
      var failed;
      ok, failed := BringBack(previous, true);
      ghost var broughtBack, restored := history, entries;
      if ok && failed.Some? {
        ok := Dispose(failed.value, Target, false, previous);
        if previous.Some? && previous.value in old(entries) {
          RecordedTransitive(old(history), broughtBack, history, Some(old(entries)[previous.value]), previous);
        }
      }
    }

    /** A deployment that fails after its activation succeeded: the explicit
        rollback leaves what a failed activation would have left. */
    method ActivateThenRollBack(staging: Name, allowReplace: bool, verifier: Verifier)
      returns (outcome: Outcome, undone: bool)
      modifies this
      ensures outcome.Activated? && undone ==>
                && Lookup(entries, Target) ==
                   (if Target in old(entries) then Some(old(entries)[Target].(mode := PRIVATE_MODE)) else None)
                && staging !in entries
                && entries - {Target} == old(entries) - {Target, staging}
      ensures outcome.Activated? ==>
                && staging in old(entries)
                && var after := StateAt(
                     old(entries), staging, outcome.previous,
                     Swapped(PRIVATE_MODE, verifier.edits(old(entries)[staging])));
                   (undone <==> UndoWorks(
                      after, outcome.previous, Target in after, None, AfterSpare(old(entries), old(drawn)),
                      old(operations) + ActivationSteps(old(entries))))
    {
      ghost var spare, stage;
      outcome, spare, stage := Activate(staging, allowReplace, verifier, false);
      undone := false;
      if outcome.Activated? {
        undone := RollbackActivated(outcome.previous);
      }
    }
  }

  /** The number of operations of a successful activation. */
  function ActivationSteps(entries: map<Name, Tree>): nat {
    if Target in entries then 6 else 3
  }

  /** What activation checks before touching anything. */
  predicate Admissible(entries: map<Name, Tree>, staging: Name, allowReplace: bool, safe: bool) {
    && safe
    && staging in entries && entries[staging].kind == RealDirectory
    && (Target in entries ==> entries[Target].kind == RealDirectory && allowReplace)
  }

  /** The directory after a completed rollback. */
  ghost function Restored(before: map<Name, Tree>, staging: Name, stage: Stage, restoreStaging: bool): map<Name, Tree> {
    var shelved := if !stage.Untouched? && Target in before
                   then before[Target := before[Target].(mode := stage.mode)]
                   else before;
    if stage.Swapped? then Put(shelved, staging, if restoreStaging then stage.tree else None) else shelved
  }

  /** The failed tree under its own name, the previous one at the target. */
  ghost function BroughtBack(entries: map<Name, Tree>, previous: Option<Name>, failed: Option<Name>): map<Name, Tree> {
    var cleared := if failed.Some? && Target in entries then Moved(entries, Target, failed.value) else entries;
    if previous.Some? && previous.value in cleared then Moved(cleared, previous.value, Target) else cleared
  }

  /** The renames of the exception handler compose to the restored directory. */
  lemma UndoneIsRestored(
    before: map<Name, Tree>, staging: Name, previous: Option<Name>, stage: Stage, failed: Option<Name>,
    restoreStaging: bool)
    requires staging in before
    requires previous.Some? ==> Target in before && previous.value !in before && previous.value.Previous?
    requires stage.Shelved? ==> previous.Some?
    requires stage.Swapped? ==> (previous.Some? <==> Target in before) && staging != Target
    requires var reached := StateAt(before, staging, previous, stage);
             && (failed.Some? <==> stage.Swapped? && Target in reached)
             && (failed.Some? ==> failed.value.Failed? && failed.value !in reached)
    ensures var back := BroughtBack(StateAt(before, staging, previous, stage), previous, failed);
            && (failed.None? ==> back == Restored(before, staging, stage, restoreStaging))
            && (failed.Some? ==> failed.value in back && (staging in back <==> failed.value == staging))
            && (failed.Some? && restoreStaging && staging !in back ==>
                  Moved(back, failed.value, staging) == Restored(before, staging, stage, restoreStaging))
            && (failed.Some? && !restoreStaging ==>
                  back - {failed.value} == Restored(before, staging, stage, restoreStaging))
  {
  }

  /** A completed rollback gives back the old root exactly when it never became
      private or already was: the chmod of the shelved tree is not undone. */
  lemma RollbackRestoresTarget(before: map<Name, Tree>, staging: Name, stage: Stage, restoreStaging: bool)
    requires Target in before && (stage.Swapped? ==> staging != Target)
    ensures Lookup(Restored(before, staging, stage, restoreStaging), Target) == Some(before[Target])
            <==> stage.Untouched? || stage.mode == before[Target].mode
    ensures var after := Restored(before, staging, stage, restoreStaging);
            Target in after && SameUpToMode(after[Target], before[Target])
    ensures forall n :: n != Target && n != staging ==>
              Lookup(Restored(before, staging, stage, restoreStaging), n) == Lookup(before, n)
  {
    var tree := before[Target];
    assert !stage.Untouched? && stage.mode == tree.mode ==> tree.(mode := stage.mode) == tree;
    assert !stage.Untouched? ==> tree.(mode := stage.mode).mode == stage.mode;
  }

  /** For example a 0755 deployment comes back as 0700 when verification fails. */
  lemma RollbackMakesRootPrivate(current: Tree, candidate: Tree)
    requires current.mode == 493  // 0o755
    ensures var before := map[Target := current, Staging(0) := candidate];
            Lookup(Restored(before, Staging(0), Swapped(PRIVATE_MODE, Some(candidate)), false), Target)
            != Some(current)
  {
    var before := map[Target := current, Staging(0) := candidate];
    RollbackRestoresTarget(before, Staging(0), Swapped(PRIVATE_MODE, Some(candidate)), false);
  }

  /** Directory inodes identify deployments across renames and edits. */
  ghost predicate DistinctInodes(entries: map<Name, Tree>) {
    forall m, n :: m in entries && n in entries && m != n ==> entries[m].inode != entries[n].inode
  }

  ghost function Inodes(entries: map<Name, Tree>): set<nat> {
    set n | n in entries :: entries[n].inode
  }

  /** The verifier edits the tree in place. */
  ghost predicate KeepsInode(verifier: Verifier) {
    forall t :: verifier.edits(t).Some? && verifier.edits(t).value.inode == t.inode
  }

  /** What may have become of the tree that was called n. */
  ghost predicate TreeKept(before: map<Name, Tree>, staging: Name, verifier: Verifier, n: Name, t: Tree)
    requires n in before
  {
    || t == before[n]
    || (n == Target && SameUpToMode(t, before[n]))
    || (n == staging && verifier.edits(before[n]) == Some(t))
  }

  /** The same deployments under other names: none lost, none doubled, and none
      changed but for the old root's mode and the verifier's edits. */
  ghost predicate Conserves(before: map<Name, Tree>, after: map<Name, Tree>, staging: Name, verifier: Verifier) {
    && Inodes(after) == Inodes(before) && DistinctInodes(after)
    && forall m, n :: m in after && n in before && after[m].inode == before[n].inode ==>
         TreeKept(before, staging, verifier, n, after[m])
  }

  /** The same trees, no tree under two names. */
  ghost predicate SameTrees(before: map<Name, Tree>, after: map<Name, Tree>) {
    after.Values == before.Values && (DistinctInodes(before) ==> DistinctInodes(after))
  }

  /** Whatever its outcome, an activation that gives failed trees back to staging
      conserves the deployments. */
  lemma ActivationConserves(
    before: map<Name, Tree>, after: map<Name, Tree>, staging: Name, spare: Option<Name>, stage: Stage,
    verifier: Verifier)
    requires DistinctInodes(before) && KeepsInode(verifier) && staging in before
    requires spare.Some? ==> Target in before && spare.value !in before && spare.value != Target
    requires stage.Shelved? ==> spare.Some?
    requires stage.Swapped? ==> (spare.Some? <==> Target in before) && staging != Target
    requires stage.Swapped? ==> stage.tree == Some(before[staging]) || stage.tree == verifier.edits(before[staging])
    requires SameTrees(StateAt(before, staging, spare, stage), after)
    ensures Conserves(before, after, staging, verifier)
  {
    StateAtConserves(before, staging, spare, stage, verifier);
    SameTreesConserve(before, StateAt(before, staging, spare, stage), after, staging, verifier);
  }

  /** Where the tree now called m was before. */
  ghost function Origin(staging: Name, previous: Option<Name>, stage: Stage, m: Name): Name {
    if stage.Swapped? && m == Target then staging
    else if previous == Some(m) && !stage.Untouched? then Target
    else m
  }

  lemma StateAtConserves(
    before: map<Name, Tree>, staging: Name, previous: Option<Name>, stage: Stage, verifier: Verifier)
    requires DistinctInodes(before) && KeepsInode(verifier) && staging in before
    requires previous.Some? ==> Target in before && previous.value !in before && previous.value != Target
    requires stage.Shelved? ==> previous.Some?
    requires stage.Swapped? ==> (previous.Some? <==> Target in before) && staging != Target
    requires stage.Swapped? ==> stage.tree == Some(before[staging]) || stage.tree == verifier.edits(before[staging])
    ensures Conserves(before, StateAt(before, staging, previous, stage), staging, verifier)
  {
    var after := StateAt(before, staging, previous, stage);
    forall m | m in after
      ensures var n := Origin(staging, previous, stage, m);
              n in before && after[m].inode == before[n].inode && TreeKept(before, staging, verifier, n, after[m])
    {
    }
    forall m, k | m in after && k in after && m != k
      ensures Origin(staging, previous, stage, m) != Origin(staging, previous, stage, k)
    {
    }
    forall n | n in before ensures before[n].inode in Inodes(after) {
      var m := if stage.Swapped? && n == staging then Target
               else if previous.Some? && !stage.Untouched? && n == Target then previous.value
               else n;
      assert m in after && Origin(staging, previous, stage, m) == n;
    }
  }

  lemma SameTreesConserve(
    before: map<Name, Tree>, middle: map<Name, Tree>, after: map<Name, Tree>, staging: Name, verifier: Verifier)
    requires Conserves(before, middle, staging, verifier)
    requires after.Values == middle.Values && DistinctInodes(after)
    ensures Conserves(before, after, staging, verifier)
  {
    InodesOfValues(middle);
    InodesOfValues(after);
    forall m, n | m in after && n in before && after[m].inode == before[n].inode
      ensures TreeKept(before, staging, verifier, n, after[m])
    {
      assert after[m] in middle.Values;
    }
  }

  lemma InodesOfValues(entries: map<Name, Tree>)
    ensures Inodes(entries) == set t | t in entries.Values :: t.inode
  {
    var inodes := set t | t in entries.Values :: t.inode;
    forall i | i in inodes ensures i in Inodes(entries) {
      var t :| t in entries.Values && t.inode == i;
      var n :| n in entries && entries[n] == t;
    }
    forall n | n in entries ensures entries[n].inode in inodes {
      assert entries[n] in entries.Values;
    }
  }

  lemma MovedConserves(entries: map<Name, Tree>, from: Name, to: Name)
    requires from in entries && to !in entries
    ensures Moved(entries, from, to).Values == entries.Values
    ensures DistinctInodes(entries) ==> DistinctInodes(Moved(entries, from, to))
  {
    var moved := Moved(entries, from, to);
    forall t | t in entries.Values ensures t in moved.Values {
      var n :| n in entries && entries[n] == t;
      assert moved[if n == from then to else n] == t;
    }
    forall t | t in moved.Values ensures t in entries.Values {
      var n :| n in moved && moved[n] == t;
      assert entries[if n == to then from else n] == t;
    }
  }

  /** How far the try block got. */
  datatype Stage = Untouched | Shelved(mode: nat) | Swapped(mode: nat, tree: Option<Tree>)

  /** That, with its success and the operation after it. */
  datatype TryEnd = TryEnd(stage: Stage, ok: bool, operations: nat)

  /** The parent directory when the try block has got that far. */
  ghost function StateAt(
    before: map<Name, Tree>, staging: Name, previous: Option<Name>, stage: Stage): map<Name, Tree>
  {
    match stage
    case Untouched => before
    case Shelved(mode) => Shelf(before, previous, mode)
    case Swapped(mode, tree) => Put(Shelf(before, previous, mode) - {staging}, Target, tree)
  }

  ghost function Shelf(before: map<Name, Tree>, previous: Option<Name>, mode: nat): map<Name, Tree> {
    if previous.Some? && Target in before
    then (before - {Target})[previous.value := before[Target].(mode := mode)]
    else before
  }

  /** Every state recorded since `earlier` keeps the old deployment, if there was
      one, at the target or under its previous name. */
  ghost predicate Recorded(
    earlier: seq<map<Name, Tree>>, later: seq<map<Name, Tree>>, deployed: Option<Tree>, previous: Option<Name>)
  {
    && earlier <= later
    && (deployed.Some? && |earlier| < |later| ==>
          && previous.Some?
          && forall i :: |earlier| <= i < |later| ==> Keeps(later[i], previous.value, deployed.value))
  }

  /** They keep the tree that was under the spare name. */
  ghost predicate RecordedSpare(
    earlier: seq<map<Name, Tree>>, later: seq<map<Name, Tree>>, entries: map<Name, Tree>, spare: Option<Name>)
  {
    && earlier <= later
    && (spare.Some? && spare.value in entries ==> Recorded(earlier, later, Some(entries[spare.value]), spare))
  }

  lemma RecordedTransitive(
    a: seq<map<Name, Tree>>, b: seq<map<Name, Tree>>, c: seq<map<Name, Tree>>,
    deployed: Option<Tree>, previous: Option<Name>)
    requires Recorded(a, b, deployed, previous) && Recorded(b, c, deployed, previous)
    ensures Recorded(a, c, deployed, previous)
  {
    forall i | deployed.Some? && |a| <= i < |c|
      ensures previous.Some? && Keeps(c[i], previous.value, deployed.value)
    {
      if i < |b| {
        assert c[i] == b[i];
      }
    }
  }
}
