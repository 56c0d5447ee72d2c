/**
 `SkillManager._recover_interrupted_update` at startup, and what any number of crashes during it
 can and cannot do.
 */
module SkillRecovery {
  import opened Options
  import opened SkillNames
  import opened SkillStore
  import opened SkillsDirectory

  /** One disk change recovery may make for one row, or the deletion of a finished journal. */
  ghost predicate RowStep(row: Row, a: Disk, b: Disk) {
    && b.journal == a.journal && IsAccepted(row)
    && (row.original.Some? ==> row.key in a.folders)
    && (|| SameExcept(a.folders, b.folders, row.Target())
        || (row.original.Some? && b.folders == Renamed(a.folders, row.key, row.original.value)))
  }

  ghost predicate RecoveryStep(a: Disk, b: Disk) {
    || a == b  // nothing changed: an exception, a crash or a restart
    || (exists i :: 0 <= i < |a.Logged()| && RowStep(a.Logged()[i], a, b))
    || (a.journal.Rows? && AllUndone(a.Logged(), a.folders) && b == a.(journal := Missing))
  }

  /** A history of recovery attempts, each cut short anywhere and started again. */
  ghost predicate RecoveryRun(run: seq<Disk>) {
    forall i :: 0 <= i < |run| - 1 ==> RecoveryStep(run[i], run[i + 1])
  }

  /** Whatever the journal says, recovery touches only proper folders of the directory and update backups. */
  lemma RecoveryStaysInside(a: Disk, b: Disk, name: string)
    requires RecoveryStep(a, b) && !SameAt(a.folders, b.folders, name)
    ensures '/' !in name && '\\' !in name && name !in {"", ".", ".."}
    ensures StartsWith(name, ".ari-") ==> StartsWith(name, ".ari-update-backup-")
  {
    if i :| 0 <= i < |a.Logged()| && RowStep(a.Logged()[i], a, b) {
      var row := a.Logged()[i];
      assert name == row.Target() || name == row.key;
      assert StartsWith(name, BACKUP_PREFIX) ==> |name| > 2;
    }
  }

  lemma RecoveryStepIsSafe(orig: Folders, a: Disk, b: Disk)
    requires Safe(orig, a) && RecoveryStep(a, b)
    ensures Safe(orig, b)
  {
    if a != b {
      if i :| 0 <= i < |a.Logged()| && RowStep(a.Logged()[i], a, b) {
        if SameExcept(a.folders, b.folders, a.Logged()[i].Target()) {
          ScratchTarget(a.Logged(), orig, a.folders, i, b.folders);
        } else {
          MoveBack(a.Logged(), orig, a.folders, i);
        }
      } else {
        UndoneMeansOriginal(a.Logged(), orig, a.folders);
      }
    }
  }

  /** However often recovery is killed and rerun, it only ever ends in the original folders. */
  lemma {:induction false} CrashesLoseNothing(orig: Folders, run: seq<Disk>)
    requires run != [] && Safe(orig, run[0]) && RecoveryRun(run)
    ensures AllSafe(orig, run, 0)
    ensures forall i :: 0 <= i < |run| && run[i].journal.Missing? ==> run[i].folders == orig
  {
    hide Safe, RecoveryStep;
    if |run| > 1 {
      var last := |run| - 1;
      CrashesLoseNothing(orig, run[..last]);
      assert run[..last][last - 1] == run[last - 1];
      RecoveryStepIsSafe(orig, run[last - 1], run[last]);
      forall i | 0 <= i < |run|
        ensures Safe(orig, run[i])
      {
        assert i < last ==> run[..last][i] == run[i];
      }
    }
    forall i | 0 <= i < |run| && run[i].journal.Missing?
      ensures run[i].folders == orig
    {
      NoJournalMeansOriginal(orig, run[i]);
    }
  }

  /** What a recovery that meets no error does to one row. */
  function Undo(row: Row, folders: Folders): Folders {
    if row.key !in folders then folders
    else if row.original.Some? then Renamed(folders, row.key, row.original.value)
    else folders - {row.key}
  }

  function UndoAll(rows: seq<Row>, folders: Folders): Folders
    decreases |rows|
  {
    if rows == [] then folders else UndoAll(rows[1..], Undo(rows[0], folders))
  }

  /** One undisturbed recovery turns any disk an update can leave into the original folders. */
  lemma {:induction false} UndoAllRestores(orig: Folders, rows: seq<Row>, done: nat, folders: Folders)
    requires Undoes(rows, orig, folders) && done <= |rows|
    requires forall i :: 0 <= i < done ==> IsUndone(rows[i], folders)
    ensures UndoAll(rows[done..], folders) == orig
    decreases |rows| - done
  {
    if done == |rows| {
      UndoneMeansOriginal(rows, orig, folders);
    } else {
      var next := Undo(rows[done], folders);
      if rows[done].key in folders {
        if rows[done].original.Some? {
          MoveBack(rows, orig, folders, done);
          KeyIsNotTarget(rows[done]);
        } else {
          ScratchTarget(rows, orig, folders, done, next);
        }
      }
      forall i | 0 <= i < done + 1
        ensures IsUndone(rows[i], next)
      {
        if i < done {
          assert Apart(rows[i], rows[done]);
          assert rows[i].Touches(rows[i].key);
        }
      }
      UndoAllRestores(orig, rows, done + 1, next);
      assert rows[done..][1..] == rows[done + 1..];
    }
  }

  lemma RecoverySucceeds(orig: Folders, disk: Disk)
    requires Safe(orig, disk)
    ensures UndoAll(disk.Logged(), disk.folders) == orig
  {
    UndoAllRestores(orig, disk.Logged(), 0, disk.folders);
    assert disk.Logged()[0..] == disk.Logged();
  }

  /**
   Recovery is re-entrant: stop an update or a rollback at any disk of its trace, let recovery crash
   there any number of times; the next recovery that is left alone restores the original folders.
   */
  lemma RecoveryIsReentrant(orig: Folders, trace: seq<Disk>, from: nat, crash: nat, run: seq<Disk>, i: nat)
    requires AllSafe(orig, trace, from) && from <= crash < |trace|
    requires i < |run| && run[0] == trace[crash] && RecoveryRun(run)
    ensures UndoAll(run[i].Logged(), run[i].folders) == orig
  {
    CrashesLoseNothing(orig, run);
    RecoverySucceeds(orig, run[i]);
  }

  /** Deleting a folder takes it from one arbitrary state to the next, and touches nothing else. */
  lemma RemovalSteps(row: Row, before: Disk, trace: seq<Disk>, from: nat)
    requires 0 < from <= |trace| && trace[from - 1] == before && IsAccepted(row)
    requires row.original.Some? ==> row.key in before.folders
    requires forall k :: from <= k < |trace| ==>
               && trace[k].journal == before.journal
               && SameExcept(before.folders, trace[k].folders, row.Target())
    ensures forall k :: from <= k < |trace| ==> RowStep(row, trace[k - 1], trace[k])
  {
    if row.original.Some? {
      KeyIsNotTarget(row);
    }
    forall k | from <= k < |trace|
      ensures RowStep(row, trace[k - 1], trace[k])
    {
      var a, b := trace[k - 1].folders, trace[k].folders;
      forall n | n != row.Target()
        ensures SameAt(a, b, n)
      {
        assert SameAt(before.folders, a, n) && SameAt(before.folders, b, n);
      }
      assert row.original.Some? ==> SameAt(before.folders, a, row.key);
    }
  }

  lemma RenameOverRemains(before: Folders, now: Folders, key: string, original: string)
    requires key in before && key != original && SameExcept(before, now, original)
    ensures key in now && Renamed(now, key, original) == Renamed(before, key, original)
  {
    assert SameAt(before, now, key);
    forall n | n != key && n != original
      ensures n in Renamed(now, key, original) <==> n in Renamed(before, key, original)
      ensures n in before ==> n in now && now[n] == before[n]
    {
      assert SameAt(before, now, n);
    }
  }

  /** Recovering one row extends a recovery run. */
  lemma RowStepsAreRecovery(rows: seq<Row>, i: nat, was: seq<Disk>, trace: seq<Disk>, start: nat)
    requires i < |rows| && start < |was| && was <= trace
    requires forall k :: start <= k < |was| ==> was[k].journal == Rows(rows)
    requires RecoveryRun(was[start..])
    requires forall k :: |was| <= k < |trace| ==> RowStep(rows[i], trace[k - 1], trace[k])
    ensures forall k :: start <= k < |trace| ==> trace[k].journal == Rows(rows)
    ensures RecoveryRun(trace[start..])
    decreases |trace|
  {
    if |was| < |trace| {
      var last := |trace| - 1;
      RowStepsAreRecovery(rows, i, was, trace[..last], start);
      assert forall k :: start <= k < last ==> trace[..last][k] == trace[k];
      assert RowStep(trace[last - 1].Logged()[i], trace[last - 1], trace[last]);
      var run, shorter := trace[start..], trace[..last][start..];
      forall k | 0 <= k < |run| - 1
        ensures RecoveryStep(run[k], run[k + 1])
      {
        if k < |run| - 2 {
          assert RecoveryStep(shorter[k], shorter[k + 1]);
        }
      }
    }
  }

  lemma UndoingKeepsUndone(rows: seq<Row>, i: nat, folders: Folders)
    requires WellFormed(rows) && i < |rows|
    requires forall j :: 0 <= j < i ==> IsUndone(rows[j], folders)
    ensures forall j :: 0 <= j <= i ==> IsUndone(rows[j], Undo(rows[i], folders))
  {
    if rows[i].original.Some? {
      KeyIsNotTarget(rows[i]);
    }
    forall j | 0 <= j < i
      ensures IsUndone(rows[j], Undo(rows[i], folders))
    {
      assert Apart(rows[j], rows[i]);
      assert rows[j].Touches(rows[j].key);
    }
  }

  /** Deleting the journal ends a recovery run that has undone every row. */
  lemma UnlinkingIsRecovery(rows: seq<Row>, was: seq<Disk>, now: Disk, start: nat)
    requires start < |was| && RecoveryRun(was[start..])
    requires var last := was[|was| - 1];
             && last.journal == Rows(rows) && AllUndone(rows, last.folders)
             && (now == last || now == last.(journal := Missing))
    ensures RecoveryRun((was + [now])[start..])
  {
    var run, more := was[start..], (was + [now])[start..];
    assert RecoveryStep(was[|was| - 1], now);
    hide RecoveryStep;
    forall k | 0 <= k < |more| - 1
      ensures RecoveryStep(more[k], more[k + 1])
    {
      if k < |run| - 1 {
        assert RecoveryStep(run[k], run[k + 1]);
      }
    }
  }

  predicate AllAccepted(rows: seq<Row>) {
    forall i :: 0 <= i < |rows| ==> IsAccepted(rows[i])
  }

  class SkillManager {
    const dir: SkillsDir

    constructor (dir: SkillsDir)
      ensures this.dir == dir
    {
      this.dir := dir;
    }

    /** One journal row: delete a created folder, or put a backup in place of what is there. */
    method RecoverRow(row: Row) returns (ok: bool)
      requires dir.Valid()
      modifies dir
      ensures dir.Valid() && old(dir.trace) <= dir.trace && dir.journal == old(dir.journal)
      ensures forall k :: |old(dir.trace)| <= k < |dir.trace| ==> RowStep(row, dir.trace[k - 1], dir.trace[k])
      ensures ok ==> IsAccepted(row) && dir.folders == Undo(row, old(dir.folders))
      ensures dir.failures >= old(dir.failures)
      ensures !ok ==> dir.failures > old(dir.failures) || !IsAccepted(row)
    {
      if !IsAccepted(row) {
        return false;
      }
      if row.key !in dir.folders {
        return true;
      }
      if row.original.None? {
        ok := dir.RemoveTree(row.key);
        RemovalSteps(row, old(dir.Now()), dir.trace, |old(dir.trace)|);
        if ok {
          SameExceptRemoved(old(dir.folders), dir.folders, row.key);
        }
        return;
      }
      KeyIsNotTarget(row);
      var original := row.original.value;
      if original in dir.folders {
        ok := dir.RemoveTree(original);
        RemovalSteps(row, old(dir.Now()), dir.trace, |old(dir.trace)|);
        RenameOverRemains(old(dir.folders), dir.folders, row.key, original);
        if !ok {
          return;
        }
      }
      ok := dir.Replace(row.key, original);
    }

    /** Startup recovery; `done` is false when it stopped at an error and left the journal. */
    method RecoverInterruptedUpdate() returns (done: bool)
      requires dir.Valid()
      modifies dir
      ensures dir.Valid() && old(dir.trace) <= dir.trace
      ensures WellFormed(old(dir.Now()).Logged()) ==> RecoveryRun(dir.trace[|old(dir.trace)| - 1..])
      ensures done ==>
                dir.Now() == Disk(UndoAll(old(dir.Now()).Logged(), old(dir.folders)), Missing)
      ensures !done ==> dir.journal == old(dir.journal) && !dir.journal.Missing?
      ensures !done ==>
                || dir.failures > old(dir.failures) || old(dir.journal).Malformed?
                || !AllAccepted(old(dir.Now()).Logged())
    {
      if dir.journal.Missing? {
        return true;
      }
      if dir.journal.Malformed? {
        return false;
      }
      hide RowStep, RecoveryStep, WellFormed, SameExcept, Undo, IsAccepted;
      var rows := dir.journal.rows;
      ghost var start := |dir.trace| - 1;
      for i := 0 to |rows|
        invariant dir.Valid() && old(dir.trace) <= dir.trace && dir.journal == Rows(rows)
        invariant dir.failures >= old(dir.failures)
        invariant UndoAll(rows[i..], dir.folders) == UndoAll(rows, old(dir.folders))
        invariant WellFormed(rows) ==> forall j :: 0 <= j < i ==> IsUndone(rows[j], dir.folders)
        invariant forall k :: start <= k < |dir.trace| ==> dir.trace[k].journal == Rows(rows)
        invariant RecoveryRun(dir.trace[start..])
      {
        ghost var before, was := dir.folders, dir.trace;
        var ok := RecoverRow(rows[i]);
        RowStepsAreRecovery(rows, i, was, dir.trace, start);
        if !ok {
          return false;
        }
        assert rows[i..][1..] == rows[i + 1..];
        if WellFormed(rows) {
          UndoingKeepsUndone(rows, i, before);
        }
      }
      ghost var was := dir.trace;
      done := dir.UnlinkJournal();
      if WellFormed(rows) {
        UnlinkingIsRecovery(rows, was, dir.Now(), start);
      }
    }
  }
}
