/**
 `SkillInstaller.update`: install over an undo journal, commit by deleting the journal, roll back
 when anything raises. A crash is modelled by stopping at any disk of the directory's trace.
 */
module SkillInstall {
  import opened Options
  import opened Strings
  import opened SkillNames
  import opened SkillStore
  import opened SkillsDirectory

  /** A fetched skill: its folder's name and the files `copytree` would copy. */
  datatype Package = Package(name: string, content: Folder)

  /** One entry of `_update_backups`: a destination and where its previous content went. */
  datatype Saved = Saved(destination: string, backup: Option<string>) {
    function ToRow(): Row {
      if backup.Some? then Row(backup.value, Some(destination)) else Row(destination, None)
    }
  }

  datatype Outcome =
    | NotUpdatable  // returned False
    | Blocked       // an earlier journal is still there
    | Updated       // returned True
    | RolledBack    // raised, and every folder was restored
    | Unrestored    // raised, and some folder was not

  function RowsOf(saved: seq<Saved>): (rows: seq<Row>)
    ensures |rows| == |saved|
  {
    seq(|saved|, i requires 0 <= i < |saved| => saved[i].ToRow())
  }

  predicate IsSaved(saved: seq<Saved>, name: string) {
    exists i :: 0 <= i < |saved| && saved[i].destination == name
  }

  /** `load_all`'s filter: what the application sees. */
  function Loaded(folders: Folders): Folders {
    map n | n in folders && !StartsWith(n, BACKUP_PREFIX) && SKILL_FILE in folders[n].files :: folders[n]
  }

  /** The enabled flag a folder had; unreadable metadata counts as enabled. */
  function EnabledBefore(orig: Folders, name: string): bool {
    name in orig && orig[name].meta.Some? ==> orig[name].meta.value.enabled
  }

  /** Fresh uuids: the backup folders they name exist nowhere yet. */
  ghost predicate FreshIds(ids: seq<string>, orig: Folders) {
    && (forall i :: 0 <= i < |ids| ==> IsBasename(ids[i]) && BACKUP_PREFIX + ids[i] !in orig)
    && (forall i, j :: 0 <= i < j < |ids| ==> ids[i] != ids[j])
  }

  /** Entries as `update` makes them: slug destinations, each once, and backups named by uuid. */
  ghost predicate WellNamed(saved: seq<Saved>, ids: seq<string>) {
    && |saved| <= |ids|
    && (forall i :: 0 <= i < |saved| ==> IsSafeName(saved[i].destination))
    && (forall i :: 0 <= i < |saved| && saved[i].backup.Some? ==>
          saved[i].backup.value == BACKUP_PREFIX + ids[i])
    && (forall i, j :: 0 <= i < j < |saved| ==> saved[i].destination != saved[j].destination)
  }

  lemma SavedNamesDiffer(saved: seq<Saved>, ids: seq<string>, orig: Folders, i: nat, j: nat)
    requires WellNamed(saved, ids) && FreshIds(ids, orig)
    requires i < j < |saved|
    ensures Apart(saved[i].ToRow(), saved[j].ToRow()) && saved[i].ToRow().key != saved[j].ToRow().key
  {
    SafeNamesAreFolderNames(saved[i].destination);
    SafeNamesAreFolderNames(saved[j].destination);
    if saved[i].backup.Some? && saved[j].backup.Some? {
      assert (BACKUP_PREFIX + ids[i])[|BACKUP_PREFIX|..] == ids[i];
      assert (BACKUP_PREFIX + ids[j])[|BACKUP_PREFIX|..] == ids[j];
    }
  }

  lemma EntryIsAccepted(saved: seq<Saved>, ids: seq<string>, orig: Folders, i: nat)
    requires WellNamed(saved, ids) && FreshIds(ids, orig) && i < |saved|
    ensures IsAccepted(saved[i].ToRow())
  {
    SafeNamesAreFolderNames(saved[i].destination);
    if saved[i].backup.Some? {
      assert IsBasename(BACKUP_PREFIX) && IsBasename(BACKUP_PREFIX + ids[i]);
    }
  }

  /** Every journal an update can write passes recovery's checks, with no folder named twice. */
  lemma JournalIsWellFormed(saved: seq<Saved>, ids: seq<string>, orig: Folders)
    requires WellNamed(saved, ids) && FreshIds(ids, orig)
    ensures WellFormed(RowsOf(saved))
    ensures forall i, j :: 0 <= i < j < |saved| ==> RowsOf(saved)[i].key != RowsOf(saved)[j].key
  {
    hide WellNamed, FreshIds, IsAccepted, Apart;
    var rows := RowsOf(saved);
    forall i | 0 <= i < |saved|
      ensures IsAccepted(rows[i])
    {
      EntryIsAccepted(saved, ids, orig, i);
    }
    forall i, j | 0 <= i < j < |saved|
      ensures Apart(rows[i], rows[j]) && rows[i].key != rows[j].key
    {
      SavedNamesDiffer(saved, ids, orig, i, j);
    }
  }

  /** No package among the first `count` after the k-th goes to the same folder. */
  ghost predicate IsLast(slugs: seq<string>, k: nat, count: nat)
    requires k < count <= |slugs|
  {
    forall m :: k < m < count ==> slugs[m] != slugs[k]
  }

  ghost predicate NotAmong(slugs: seq<string>, count: nat, name: string)
    requires count <= |slugs|
  {
    forall k :: 0 <= k < count ==> slugs[k] != name
  }

  /** The packages' folders carry the new files and their old enabled flags; the rest is as before. */
  ghost predicate Installed(orig: Folders, now: Folders, packages: seq<Package>, slugs: seq<string>,
                            source: string)
    requires |slugs| == |packages|
  {
    && (forall i :: 0 <= i < |slugs| && IsLast(slugs, i, |slugs|) ==>
          && slugs[i] in Loaded(now)
          && now[slugs[i]] == Folder(packages[i].content.files,
                                     Some(Metadata(EnabledBefore(orig, slugs[i]), source))))
    && (forall n :: NotAmong(slugs, |slugs|, n) ==> SameAt(Loaded(orig), Loaded(now), n))
    && (forall n :: NotAmong(slugs, |slugs|, n) && !StartsWith(n, BACKUP_PREFIX) ==> SameAt(orig, now, n))
  }

  ghost predicate Committed(orig: Folders, disk: Disk, packages: seq<Package>, slugs: seq<string>,
                            source: string)
    requires |slugs| == |packages|
  {
    disk.journal.Missing? && Installed(orig, disk.folders, packages, slugs, source)
  }

  /** Leftover backups, whole or half deleted, do not change what is loaded. */
  lemma BackupsAreInvisible(now: Folders, next: Folders, backup: string)
    requires SameExcept(now, next, backup) && StartsWith(backup, BACKUP_PREFIX)
    ensures Loaded(now) == Loaded(next)
  {
    forall n | n in Loaded(now) || n in Loaded(next)
      ensures SameAt(Loaded(now), Loaded(next), n)
    {
      assert SameAt(now, next, n);
    }
  }

  /** The journal lists the first entries; an entry it does not list yet has nothing to undo. */
  ghost predicate CoveredBy(saved: seq<Saved>, disk: Disk) {
    && |disk.Logged()| <= |saved|
    && (forall i :: 0 <= i < |disk.Logged()| ==> disk.Logged()[i] == saved[i].ToRow())
    && (forall i :: |disk.Logged()| <= i < |saved| ==> saved[i].ToRow().key !in disk.folders)
  }

  ghost predicate AllMovedAway(saved: seq<Saved>, folders: Folders) {
    forall i :: 0 <= i < |saved| && saved[i].backup.Some? ==> saved[i].backup.value in folders
  }

  /** At any moment of an update before its commit. */
  ghost predicate CanUndo(saved: seq<Saved>, ids: seq<string>, orig: Folders, disk: Disk) {
    && WellNamed(saved, ids) && FreshIds(ids, orig)
    && CoveredBy(saved, disk) && Safe(orig, disk)
  }

  /** Between two packages: the journal lists every entry, and all previous content is put away. */
  ghost predicate InSync(saved: seq<Saved>, ids: seq<string>, orig: Folders, disk: Disk) {
    && CanUndo(saved, ids, orig, disk)
    && |disk.Logged()| == |saved| && AllMovedAway(saved, disk.folders)
  }

  /** The content that row `i` protects is not in the destination any more. */
  ghost predicate Exposed(orig: Folders, disk: Disk, i: nat) {
    && Safe(orig, disk) && i < |disk.Logged()|
    && (disk.Logged()[i].original.Some? ==> disk.Logged()[i].key in disk.folders)
  }

  /** Only `name` and backup folders may differ. */
  ghost predicate SameElsewhere(a: Folders, b: Folders, name: string) {
    forall n :: n != name && !StartsWith(n, BACKUP_PREFIX) ==> SameAt(a, b, n)
  }

  lemma SavedGrows(saved: seq<Saved>, entry: Saved)
    ensures forall n :: IsSaved(saved + [entry], n) <==> IsSaved(saved, n) || n == entry.destination
  {
    var more := saved + [entry];
    assert more[|saved|] == entry;
    forall n | IsSaved(saved, n)
      ensures IsSaved(more, n)
    {
      var i :| 0 <= i < |saved| && saved[i].destination == n;
      assert more[i].destination == n;
    }
  }

  lemma SameElsewhereSelf(folders: Folders, name: string)
    ensures SameElsewhere(folders, folders, name)
  {
  }

  lemma SameElsewhereThen(a: Folders, b: Folders, c: Folders, name: string)
    requires SameElsewhere(a, b, name) && SameExcept(b, c, name)
    ensures SameElsewhere(a, c, name)
  {
    forall n | n != name && !StartsWith(n, BACKUP_PREFIX)
      ensures SameAt(a, c, n)
    {
      assert SameAt(a, b, n) && SameAt(b, c, n);
    }
  }

  lemma StillMovedAway(saved: seq<Saved>, ids: seq<string>, before: Folders, now: Folders, folder: string)
    requires WellNamed(saved, ids) && IsSafeName(folder)
    requires AllMovedAway(saved, before) && SameExcept(before, now, folder)
    ensures AllMovedAway(saved, now)
  {
    SafeNamesAreFolderNames(folder);
    forall i | 0 <= i < |saved| && saved[i].backup.Some?
      ensures saved[i].backup.value in now
    {
      assert SameAt(before, now, saved[i].backup.value);
    }
  }

  /** Whatever is left of a logged destination while it is deleted or copied, recovery undoes it. */
  lemma ScratchedStaysSafe(orig: Folders, before: Disk, i: nat, trace: seq<Disk>, from: nat)
    requires Exposed(orig, before, i)
    requires forall k :: from <= k < |trace| ==>
               && trace[k].journal == before.journal
               && SameExcept(before.folders, trace[k].folders, before.Logged()[i].Target())
    ensures forall k :: from <= k < |trace| ==> Exposed(orig, trace[k], i)
    ensures AllSafe(orig, trace, from)
  {
    var row := before.Logged()[i];
    if row.original.Some? {
      KeyIsNotTarget(row);
    }
    forall k | from <= k < |trace|
      ensures Exposed(orig, trace[k], i)
    {
      ScratchTarget(before.Logged(), orig, before.folders, i, trace[k].folders);
      assert row.original.Some? ==> SameAt(before.folders, trace[k].folders, row.key);
    }
  }

  /** The entry for a destination not saved yet: moved to a fresh backup if it exists. */
  function EntryFor(folder: string, folders: Folders, id: string): Saved {
    Saved(folder, if folder in folders then Some(BACKUP_PREFIX + id) else None)
  }

  /** While every previous content is put away, a saved destination may hold anything. */
  lemma SavedMayBeScratched(saved: seq<Saved>, ids: seq<string>, orig: Folders, before: Disk, name: string,
                            now: Disk)
    requires WellNamed(saved, ids) && FreshIds(ids, orig) && IsSaved(saved, name)
    requires CoveredBy(saved, before) && |before.Logged()| == |saved| && Safe(orig, before)
    requires AllMovedAway(saved, before.folders)
    requires now.journal == before.journal && SameExcept(before.folders, now.folders, name)
    ensures Safe(orig, now) && AllMovedAway(saved, now.folders)
  {
    var i :| 0 <= i < |saved| && saved[i].destination == name;
    assert before.Logged()[i] == saved[i].ToRow();
    ScratchTarget(before.Logged(), orig, before.folders, i, now.folders);
    StillMovedAway(saved, ids, before.folders, now.folders, name);
  }

  /** A new destination and its fresh backup name are not yet spoken about. */
  lemma NewRowIsUntouched(saved: seq<Saved>, entry: Saved, ids: seq<string>, orig: Folders)
    requires WellNamed(saved + [entry], ids) && FreshIds(ids, orig)
    ensures forall n :: entry.ToRow().Touches(n) ==> !Touched(RowsOf(saved), n)
  {
    var more := saved + [entry];
    forall n, i | entry.ToRow().Touches(n) && 0 <= i < |saved|
      ensures !RowsOf(saved)[i].Touches(n)
    {
      SavedNamesDiffer(more, ids, orig, i, |saved|);
      assert more[i] == saved[i];
    }
  }

  lemma InSyncCanUndo(saved: seq<Saved>, ids: seq<string>, orig: Folders, disk: Disk)
    requires InSync(saved, ids, orig, disk)
    ensures CanUndo(saved, ids, orig, disk)
  {
  }

  /** Writing an entry down before acting on it: the longer journal is true of the same folders. */
  lemma LogEntry(saved: seq<Saved>, folder: string, ids: seq<string>, orig: Folders, disk: Disk)
    requires InSync(saved, ids, orig, disk) && |saved| < |ids|
    requires IsSafeName(folder) && !IsSaved(saved, folder)
    ensures var entry := EntryFor(folder, disk.folders, ids[|saved|]);
            && WellNamed(saved + [entry], ids)
            && RowsOf(saved + [entry]) == RowsOf(saved) + [entry.ToRow()]
            && entry.ToRow().key !in disk.folders
            && Undoes(RowsOf(saved + [entry]), orig, disk.folders)
  {
    var entry := EntryFor(folder, disk.folders, ids[|saved|]);
    var row := entry.ToRow();
    assert WellNamed(saved + [entry], ids);
    assert RowsOf(saved + [entry]) == RowsOf(saved) + [row];
    JournalIsWellFormed(saved + [entry], ids, orig);
    assert IsAccepted(row) by {
      assert RowsOf(saved + [entry])[|saved|] == row;
    }
    NewRowIsUntouched(saved, entry, ids, orig);
    assert disk.Logged() == RowsOf(saved);
    assert row.key !in disk.folders by {
      assert row.Touches(row.key) && !Touched(disk.Logged(), row.key);
      assert SameAt(orig, disk.folders, row.key);
    }
    LogRow(RowsOf(saved), orig, disk.folders, row);
  }

  /** Before and after the journal is replaced, the new entry is undoable; without a backup it is done. */
  lemma EntryIsUndoable(saved: seq<Saved>, folder: string, ids: seq<string>, orig: Folders, disk: Disk)
    requires InSync(saved, ids, orig, disk) && |saved| < |ids|
    requires IsSafeName(folder) && !IsSaved(saved, folder)
    ensures var entry := EntryFor(folder, disk.folders, ids[|saved|]);
            var logged := Disk(disk.folders, Rows(RowsOf(saved + [entry])));
            && CanUndo(saved + [entry], ids, orig, disk)
            && CanUndo(saved + [entry], ids, orig, logged)
            && (entry.backup.None? ==> InSync(saved + [entry], ids, orig, logged))
    ensures SameElsewhere(disk.folders, disk.folders, folder)
  {
    LogEntry(saved, folder, ids, orig, disk);
  }

  /** The renaming after that completes the entry. */
  lemma EntryIsMovedAway(saved: seq<Saved>, folder: string, ids: seq<string>, orig: Folders, disk: Disk)
    requires InSync(saved, ids, orig, disk) && |saved| < |ids|
    requires IsSafeName(folder) && !IsSaved(saved, folder) && folder in disk.folders
    ensures var entry := EntryFor(folder, disk.folders, ids[|saved|]);
            var moved := Renamed(disk.folders, folder, entry.backup.value);
            && InSync(saved + [entry], ids, orig, Disk(moved, Rows(RowsOf(saved + [entry]))))
            && SameElsewhere(disk.folders, moved, folder)
  {
    LogEntry(saved, folder, ids, orig, disk);
    var entry := EntryFor(folder, disk.folders, ids[|saved|]);
    var more := saved + [entry];
    MoveAway(RowsOf(more), orig, disk.folders, |saved|);
    SafeNamesAreFolderNames(folder);
    assert AllMovedAway(more, Renamed(disk.folders, folder, entry.backup.value)) by {
      forall i | 0 <= i < |saved| && saved[i].backup.Some?
        ensures more[i] == saved[i] && saved[i].backup.value != folder
      {
      }
    }
  }

  /** The first `count` packages are in place; folders neither theirs nor backups are as before. */
  ghost predicate Placed(orig: Folders, now: Folders, packages: seq<Package>, slugs: seq<string>, count: nat)
    requires |slugs| == |packages| && count <= |slugs|
  {
    && (forall i :: 0 <= i < count && IsLast(slugs, i, count) ==>
          slugs[i] in now && now[slugs[i]].files == packages[i].content.files)
    && (forall n :: NotAmong(slugs, count, n) && !StartsWith(n, BACKUP_PREFIX) ==> SameAt(orig, now, n))
  }

  lemma PlacedMore(orig: Folders, now: Folders, packages: seq<Package>, slugs: seq<string>, i: nat, next: Folders)
    requires |slugs| == |packages| && i < |slugs| && Placed(orig, now, packages, slugs, i)
    requires SameElsewhere(now, next, slugs[i])
    requires slugs[i] in next && next[slugs[i]].files == packages[i].content.files
    requires forall k :: 0 <= k < |slugs| ==> !StartsWith(slugs[k], BACKUP_PREFIX)
    ensures Placed(orig, next, packages, slugs, i + 1)
  {
    forall k | 0 <= k < i + 1 && IsLast(slugs, k, i + 1)
      ensures slugs[k] in next && next[slugs[k]].files == packages[k].content.files
    {
      if k < i {
        assert IsLast(slugs, k, i) && SameAt(now, next, slugs[k]);
      }
    }
    forall n | NotAmong(slugs, i + 1, n) && !StartsWith(n, BACKUP_PREFIX)
      ensures SameAt(orig, next, n)
    {
      assert NotAmong(slugs, i, n);
      assert SameAt(orig, now, n) && SameAt(now, next, n);
    }
  }

  /** Working on one entry's folders brings no other entry's key into being. */
  lemma OthersUnaffected(saved: seq<Saved>, ids: seq<string>, orig: Folders, i: nat, a: Folders, b: Folders)
    requires WellNamed(saved, ids) && FreshIds(ids, orig) && i < |saved|
    requires forall n :: !saved[i].ToRow().Touches(n) ==> SameAt(a, b, n)
    ensures forall j :: 0 <= j < |saved| && j != i ==>
              (saved[j].ToRow().key in a <==> saved[j].ToRow().key in b)
  {
    forall j | 0 <= j < |saved| && j != i
      ensures saved[j].ToRow().key in a <==> saved[j].ToRow().key in b
    {
      SavedNamesDiffer(saved, ids, orig, if i < j then i else j, if i < j then j else i);
      assert saved[j].ToRow().Touches(saved[j].ToRow().key);
      assert SameAt(a, b, saved[j].ToRow().key);
    }
  }

  /** What was undone stays undone. */
  ghost predicate StillUndone(saved: seq<Saved>, before: Folders, now: Folders) {
    forall j :: 0 <= j < |saved| && saved[j].ToRow().key !in before ==> saved[j].ToRow().key !in now
  }

  lemma StillUndoneThrough(saved: seq<Saved>, a: Folders, b: Folders, c: Folders)
    requires StillUndone(saved, a, b) && StillUndone(saved, b, c)
    ensures StillUndone(saved, a, c)
  {
  }

  /** The entries from `i` on are undone. */
  ghost predicate UndoneFrom(saved: seq<Saved>, i: nat, folders: Folders) {
    forall j :: i <= j < |saved| ==> saved[j].ToRow().key !in folders
  }

  lemma OneMoreUndone(saved: seq<Saved>, i: nat, before: Folders, now: Folders)
    requires i < |saved| && UndoneFrom(saved, i + 1, before) && StillUndone(saved, before, now)
    requires saved[i].ToRow().key !in now
    ensures UndoneFrom(saved, i, now)
  {
  }

  lemma CanUndoIsSafe(saved: seq<Saved>, ids: seq<string>, orig: Folders, disk: Disk)
    requires CanUndo(saved, ids, orig, disk)
    ensures Safe(orig, disk)
  {
  }

  lemma UndoneIsOriginal(saved: seq<Saved>, ids: seq<string>, orig: Folders, disk: Disk)
    requires CanUndo(saved, ids, orig, disk) && UndoneFrom(saved, 0, disk.folders)
    ensures disk.folders == orig
  {
    assert forall j :: 0 <= j < |disk.Logged()| ==> disk.Logged()[j] == saved[j].ToRow();
    UndoneMeansOriginal(disk.Logged(), orig, disk.folders);
  }

  /** Deleting a destination, wholly or in part, while its entry is being undone. */
  lemma EntryMayBeScratched(saved: seq<Saved>, ids: seq<string>, orig: Folders, before: Disk, i: nat, now: Disk)
    requires CanUndo(saved, ids, orig, before) && i < |saved| && saved[i].ToRow().key in before.folders
    requires now.journal == before.journal && SameExcept(before.folders, now.folders, saved[i].destination)
    ensures CanUndo(saved, ids, orig, now) && StillUndone(saved, before.folders, now.folders)
    ensures saved[i].backup.Some? ==> saved[i].backup.value in now.folders
  {
    var row := saved[i].ToRow();
    assert before.Logged()[i] == row;
    ScratchTarget(before.Logged(), orig, before.folders, i, now.folders);
    OthersUnaffected(saved, ids, orig, i, before.folders, now.folders);
    if saved[i].backup.Some? {
      KeyIsNotTarget(row);
      assert SameAt(before.folders, now.folders, row.key);
    }
  }

  lemma AllMayBeScratched(saved: seq<Saved>, ids: seq<string>, orig: Folders, before: Disk, i: nat,
                          trace: seq<Disk>, from: nat)
    requires CanUndo(saved, ids, orig, before) && i < |saved| && saved[i].ToRow().key in before.folders
    requires forall k :: from <= k < |trace| ==>
               && trace[k].journal == before.journal
               && SameExcept(before.folders, trace[k].folders, saved[i].destination)
    ensures AllSafe(orig, trace, from)
  {
    forall k | from <= k < |trace|
      ensures Safe(orig, trace[k])
    {
      EntryMayBeScratched(saved, ids, orig, before, i, trace[k]);
    }
  }

  /** Renaming a backup to its destination undoes its entry. */
  lemma EntryIsMovedBack(saved: seq<Saved>, ids: seq<string>, orig: Folders, disk: Disk, i: nat)
    requires CanUndo(saved, ids, orig, disk) && i < |saved|
    requires saved[i].backup.Some? && saved[i].backup.value in disk.folders
    ensures var back := Renamed(disk.folders, saved[i].backup.value, saved[i].destination);
            && CanUndo(saved, ids, orig, disk.(folders := back))
            && StillUndone(saved, disk.folders, back) && saved[i].ToRow().key !in back
  {
    var back := Renamed(disk.folders, saved[i].backup.value, saved[i].destination);
    assert disk.Logged()[i] == saved[i].ToRow();
    KeyIsNotTarget(saved[i].ToRow());
    MoveBack(disk.Logged(), orig, disk.folders, i);
    OthersUnaffected(saved, ids, orig, i, disk.folders, back);
  }

  predicate IsBackup(saved: seq<Saved>, name: string) {
    exists i :: 0 <= i < |saved| && saved[i].backup == Some(name)
  }

  ghost predicate SameButBackups(saved: seq<Saved>, a: Folders, b: Folders) {
    forall n :: !IsBackup(saved, n) ==> SameAt(a, b, n)
  }

  /** The first `count` backups are gone. */
  ghost predicate BackupsGone(saved: seq<Saved>, count: nat, folders: Folders) {
    forall j :: 0 <= j < |saved| && j < count && saved[j].backup.Some? ==> saved[j].backup.value !in folders
  }

  lemma OneMoreBackup(saved: seq<Saved>, i: nat, a: Folders, b: Folders, c: Folders)
    requires i < |saved| && saved[i].backup.Some?
    requires SameButBackups(saved, a, b) && SameExcept(b, c, saved[i].backup.value)
    ensures SameButBackups(saved, a, c)
    ensures BackupsGone(saved, i, b) && saved[i].backup.value !in c ==> BackupsGone(saved, i + 1, c)
  {
    forall n | !IsBackup(saved, n)
      ensures SameAt(a, c, n)
    {
      assert SameAt(a, b, n) && SameAt(b, c, n);
    }
    if BackupsGone(saved, i, b) && saved[i].backup.value !in c {
      forall j | 0 <= j < i + 1 && saved[j].backup.Some?
        ensures saved[j].backup.value !in c
      {
        assert saved[j].backup != saved[i].backup ==> SameAt(b, c, saved[j].backup.value);
      }
    }
  }

  /** The backup folders are those that were there before: none is left behind, none was lost. */
  ghost predicate Cleared(orig: Folders, now: Folders) {
    forall n :: StartsWith(n, BACKUP_PREFIX) ==> SameAt(orig, now, n)
  }

  lemma GoneIsCleared(saved: seq<Saved>, ids: seq<string>, orig: Folders, disk: Disk, now: Folders)
    requires CanUndo(saved, ids, orig, disk) && SameButBackups(saved, disk.folders, now)
    requires BackupsGone(saved, |saved|, now)
    ensures Cleared(orig, now)
  {
    forall n | StartsWith(n, BACKUP_PREFIX)
      ensures SameAt(orig, now, n)
    {
      if IsBackup(saved, n) {
        var i :| 0 <= i < |saved| && saved[i].backup == Some(n);
        assert n == BACKUP_PREFIX + ids[i];
      } else {
        forall i | 0 <= i < |disk.Logged()|
          ensures !disk.Logged()[i].Touches(n)
        {
          SafeNamesAreFolderNames(saved[i].destination);
        }
        assert !Touched(disk.Logged(), n);
        assert SameAt(disk.folders, now, n);
      }
    }
  }

  lemma SlugIsUntouched(orig: Folders, before: Folders, now: Folders, packages: seq<Package>, slugs: seq<string>,
                        source: string, backup: string, i: nat)
    requires |slugs| == |packages| && Installed(orig, before, packages, slugs, source)
    requires SameExcept(before, now, backup) && StartsWith(backup, BACKUP_PREFIX)
    requires i < |slugs| && IsLast(slugs, i, |slugs|)
    ensures slugs[i] in Loaded(before) && slugs[i] in now && now[slugs[i]] == before[slugs[i]]
  {
    assert slugs[i] in Loaded(before) && SameAt(before, now, slugs[i]);
  }

  lemma OtherIsUntouched(orig: Folders, before: Folders, now: Folders, packages: seq<Package>, slugs: seq<string>,
                         source: string, backup: string, name: string)
    requires |slugs| == |packages| && Installed(orig, before, packages, slugs, source)
    requires SameExcept(before, now, backup) && StartsWith(backup, BACKUP_PREFIX)
    requires NotAmong(slugs, |slugs|, name)
    ensures SameAt(Loaded(orig), Loaded(before), name)
    ensures !StartsWith(name, BACKUP_PREFIX) ==> SameAt(orig, now, name)
  {
    if !StartsWith(name, BACKUP_PREFIX) {
      assert SameAt(orig, before, name) && SameAt(before, now, name);
    }
  }

  lemma CommittedIgnoresBackups(orig: Folders, before: Folders, disk: Disk, packages: seq<Package>,
                                slugs: seq<string>, source: string, backup: string)
    requires |slugs| == |packages| && Installed(orig, before, packages, slugs, source)
    requires disk.journal.Missing? && SameExcept(before, disk.folders, backup)
    requires StartsWith(backup, BACKUP_PREFIX)
    ensures Committed(orig, disk, packages, slugs, source)
  {
    var now := disk.folders;
    BackupsAreInvisible(before, now, backup);
    forall i | 0 <= i < |slugs| && IsLast(slugs, i, |slugs|)
      ensures slugs[i] in Loaded(now)
      ensures now[slugs[i]] == Folder(packages[i].content.files,
                                      Some(Metadata(EnabledBefore(orig, slugs[i]), source)))
    {
      SlugIsUntouched(orig, before, now, packages, slugs, source, backup, i);
    }
    hide SameExcept, Loaded, EnabledBefore;
    forall n | NotAmong(slugs, |slugs|, n)
      ensures SameAt(Loaded(orig), Loaded(now), n)
      ensures !StartsWith(n, BACKUP_PREFIX) ==> SameAt(orig, now, n)
    {
      OtherIsUntouched(orig, before, now, packages, slugs, source, backup, n);
    }
  }

  /** Every disk of the trace from there on has the new skills and no journal. */
  ghost predicate AllCommitted(orig: Folders, trace: seq<Disk>, from: nat, packages: seq<Package>,
                               slugs: seq<string>, source: string)
    requires |slugs| == |packages|
  {
    forall k :: from <= k < |trace| ==> Committed(orig, trace[k], packages, slugs, source)
  }

  /** While a backup is deleted, nothing of that changes. */
  lemma StillCommitted(orig: Folders, before: Folders, was: seq<Disk>, trace: seq<Disk>, from: nat,
                       packages: seq<Package>, slugs: seq<string>, source: string, backup: string)
    requires |slugs| == |packages| && Installed(orig, before, packages, slugs, source)
    requires StartsWith(backup, BACKUP_PREFIX) && from <= |was| && was <= trace
    requires AllCommitted(orig, was, from, packages, slugs, source)
    requires forall k :: |was| <= k < |trace| ==>
               trace[k].journal.Missing? && SameExcept(before, trace[k].folders, backup)
    ensures AllCommitted(orig, trace, from, packages, slugs, source)
  {
    hide Committed, Installed, SameExcept;
    forall k | from <= k < |trace|
      ensures Committed(orig, trace[k], packages, slugs, source)
    {
      if k < |was| {
        assert trace[k] == was[k];
      } else {
        CommittedIgnoresBackups(orig, before, trace[k], packages, slugs, source, backup);
      }
    }
  }

  /** Once everything is back, the journal may stay or go. */
  lemma UnlinkingRestoredIsSafe(orig: Folders, disk: Disk)
    requires disk.folders == orig
    ensures Safe(orig, disk.(journal := Missing))
  {
  }

  function FlagFor(flags: map<string, bool>, name: string): bool {
    if name in flags then flags[name] else true
  }

  ghost predicate HasFlag(folders: Folders, name: string, enabled: bool, source: string) {
    name in folders && folders[name].meta == Some(Metadata(enabled, source))
  }

  /** The first `count` folders have their metadata. */
  ghost predicate HaveFlags(folders: Folders, names: seq<string>, count: nat, flags: map<string, bool>,
                            source: string)
    requires count <= |names|
  {
    forall i :: 0 <= i < count ==> HasFlag(folders, names[i], FlagFor(flags, names[i]), source)
  }

  /** With the metadata written too, the application loads exactly the updated skills. */
  lemma PlacedIsInstalled(orig: Folders, now: Folders, packages: seq<Package>, slugs: seq<string>,
                          flags: map<string, bool>, source: string)
    requires |slugs| == |packages| && Placed(orig, now, packages, slugs, |slugs|)
    requires forall i :: 0 <= i < |slugs| ==> !StartsWith(slugs[i], BACKUP_PREFIX)
    requires forall i :: 0 <= i < |packages| ==> SKILL_FILE in packages[i].content.files
    requires HaveFlags(now, slugs, |slugs|, flags, source)
    requires forall n :: FlagFor(flags, n) == EnabledBefore(orig, n)
    ensures Installed(orig, now, packages, slugs, source)
  {
    forall i | 0 <= i < |slugs| && IsLast(slugs, i, |slugs|)
      ensures slugs[i] in Loaded(now)
      ensures now[slugs[i]] == Folder(packages[i].content.files,
                                      Some(Metadata(EnabledBefore(orig, slugs[i]), source)))
    {
      assert HasFlag(now, slugs[i], FlagFor(flags, slugs[i]), source);
    }
    forall n | NotAmong(slugs, |slugs|, n)
      ensures SameAt(Loaded(orig), Loaded(now), n)
    {
      if !StartsWith(n, BACKUP_PREFIX) {
        assert SameAt(orig, now, n);
      }
    }
  }

  lemma FlagRestored(orig: Folders, now: Folders, packages: seq<Package>, slugs: seq<string>,
                     i: nat, flags: map<string, bool>, source: string)
    requires |slugs| == |packages| && Placed(orig, now, packages, slugs, |slugs|)
    requires i < |slugs| && slugs[i] in now && HaveFlags(now, slugs, i, flags, source)
    ensures var meta := Some(Metadata(FlagFor(flags, slugs[i]), source));
            var next := now[slugs[i] := Folder(now[slugs[i]].files, meta)];
            Placed(orig, next, packages, slugs, |slugs|) && HaveFlags(next, slugs, i + 1, flags, source)
  {
    var meta := Some(Metadata(FlagFor(flags, slugs[i]), source));
    var next := now[slugs[i] := Folder(now[slugs[i]].files, meta)];
    forall n | NotAmong(slugs, |slugs|, n) && !StartsWith(n, BACKUP_PREFIX)
      ensures SameAt(orig, next, n)
    {
      assert SameAt(orig, now, n);
    }
    hide StartsWith;
    forall k | 0 <= k < i + 1
      ensures HasFlag(next, slugs[k], FlagFor(flags, slugs[k]), source)
    {
      assert k < i ==> HasFlag(now, slugs[k], FlagFor(flags, slugs[k]), source);
    }
  }

  class SkillInstaller {
    const dir: SkillsDir
    const slugOf: string -> string
    var backups: Option<seq<Saved>>

    /** `isWord` is Python's `\w`, which never matches a path separator. */
    constructor (dir: SkillsDir, isWord: CharClass)
      requires !isWord('/') && !isWord('\\')
      ensures this.dir == dir && backups == None && SlugsAreSafe()
      ensures forall name :: slugOf(name) == Slugify(name, isWord)
    {
      this.dir := dir;
      slugOf := name => Slugify(name, isWord);
      backups := None;
      new;
      forall name
        ensures IsSafeName(slugOf(name))
      {
        SlugIsSafe(name, isWord);
      }
    }

    /** Folder names come from `_slugify`; this is all the protocol needs to know about them. */
    ghost predicate SlugsAreSafe() {
      forall name :: IsSafeName(slugOf(name))
    }

    function Slug(p: Package): string {
      slugOf(p.name)
    }

    function Slugs(packages: seq<Package>): (slugs: seq<string>)
      ensures |slugs| == |packages|
    {
      seq(|packages|, i requires 0 <= i < |packages| => Slug(packages[i]))
    }

    ghost predicate Synced(orig: Folders, ids: seq<string>)
      reads this, dir
    {
      dir.Valid() && backups.Some? && InSync(backups.value, ids, orig, dir.Now())
    }

    ghost predicate Undoable(orig: Folders, ids: seq<string>)
      reads this, dir
    {
      dir.Valid() && backups.Some? && CanUndo(backups.value, ids, orig, dir.Now())
    }

    method WriteUpdateJournal() returns (ok: bool)
      requires dir.Valid() && backups.Some?
      modifies dir
      ensures dir.Valid() && dir.trace == old(dir.trace) + [dir.Now()] && dir.folders == old(dir.folders)
      ensures dir.journal == if ok then Rows(RowsOf(backups.value)) else old(dir.journal)
      ensures dir.failures == old(dir.failures) + if ok then 0 else 1
    {
      ok := dir.WriteJournal(RowsOf(backups.value));
    }

    /** Logs a destination and moves its present content, if any, out of the way. */
    method PutAway(folder: string, ids: seq<string>, ghost orig: Folders) returns (ok: bool)
      requires Synced(orig, ids) && |backups.value| < |ids|
      requires IsSafeName(folder) && !IsSaved(backups.value, folder)
      modifies this, dir
      ensures Undoable(orig, ids)
      ensures old(dir.trace) <= dir.trace && AllSafe(orig, dir.trace, |old(dir.trace)|)
      ensures backups.value == old(backups.value) + [EntryFor(folder, old(dir.folders), ids[|old(backups.value)|])]
      ensures ok ==> Synced(orig, ids)
      ensures SameElsewhere(old(dir.folders), dir.folders, folder)
      ensures dir.failures >= old(dir.failures) && (!ok ==> dir.failures > old(dir.failures))
    {
      ghost var saved := backups.value;
      EntryIsUndoable(saved, folder, ids, orig, dir.Now());
      var entry := EntryFor(folder, dir.folders, ids[|backups.value|]);
      backups := Some(backups.value + [entry]);
      ok := WriteUpdateJournal();
      OneMoreIsSafe(orig, old(dir.trace), dir.Now());
      if ok && entry.backup.Some? {
        label Logged:
        EntryIsMovedAway(saved, folder, ids, orig, old(dir.Now()));
        ok := dir.Replace(folder, entry.backup.value);
        OneMoreIsSafe(orig, old@Logged(dir.trace), dir.Now());
        SafeThrough(orig, old(dir.trace), old@Logged(dir.trace), dir.trace);
      }
    }

    /** `rmtree`, `copytree` and the metadata, on a destination whose old content is protected. */
    method CopyInto(folder: string, content: Folder, source: string, ghost i: nat, ghost orig: Folders)
      returns (ok: bool)
      requires dir.Valid() && Exposed(orig, dir.Now(), i) && dir.Now().Logged()[i].Target() == folder
      modifies dir
      ensures dir.Valid() && Exposed(orig, dir.Now(), i)
      ensures dir.journal == old(dir.journal)
      ensures old(dir.trace) <= dir.trace && AllSafe(orig, dir.trace, |old(dir.trace)|)
      ensures SameExcept(old(dir.folders), dir.folders, folder)
      ensures ok ==> folder in dir.folders
      ensures ok ==> dir.folders[folder] == Folder(content.files, Some(Metadata(true, source)))
      ensures dir.failures >= old(dir.failures) && (!ok ==> dir.failures > old(dir.failures))
    {
      ghost var was := dir.folders;
      var _ := dir.RemoveTree(folder);
      ScratchedStaysSafe(orig, old(dir.Now()), i, dir.trace, |old(dir.trace)|);
      label Removed:
      ok := dir.CopyTree(content, folder);
      ScratchedStaysSafe(orig, old@Removed(dir.Now()), i, dir.trace, |old@Removed(dir.trace)|);
      SameExceptTransitive(was, old@Removed(dir.folders), dir.folders, folder);
      if ok {
        label Copied:
        ok := dir.WriteMetadata(folder, Metadata(true, source));
        ScratchedStaysSafe(orig, old@Copied(dir.Now()), i, dir.trace, |old@Copied(dir.trace)|);
        SameExceptTransitive(was, old@Copied(dir.folders), dir.folders, folder);
      }
    }

    /** The same for a saved destination, while all previous content is put away. */
    method Overwrite(folder: string, content: Folder, source: string, ids: seq<string>, ghost orig: Folders)
      returns (ok: bool)
      requires Synced(orig, ids) && IsSaved(backups.value, folder)
      modifies dir
      ensures Synced(orig, ids)
      ensures old(dir.trace) <= dir.trace && AllSafe(orig, dir.trace, |old(dir.trace)|)
      ensures SameExcept(old(dir.folders), dir.folders, folder)
      ensures ok ==> folder in dir.folders
      ensures ok ==> dir.folders[folder] == Folder(content.files, Some(Metadata(true, source)))
      ensures dir.failures >= old(dir.failures) && (!ok ==> dir.failures > old(dir.failures))
    {
      ghost var i :| 0 <= i < |backups.value| && backups.value[i].destination == folder;
      assert dir.Now().Logged()[i] == backups.value[i].ToRow();
      ok := CopyInto(folder, content, source, i, orig);
      StillMovedAway(backups.value, ids, old(dir.folders), dir.folders, folder);
    }

    /** One package: put the old folder away, then delete, copy and write the metadata. */
    method InstallFromLocalDir(p: Package, source: string, ids: seq<string>, ghost orig: Folders)
      returns (r: Option<string>)
      requires Synced(orig, ids) && |backups.value| < |ids|
      requires SlugsAreSafe()
      modifies this, dir
      ensures Undoable(orig, ids)
      ensures old(dir.trace) <= dir.trace && AllSafe(orig, dir.trace, |old(dir.trace)|)
      ensures r.Some? ==>
                && r.value == Slug(p) && Synced(orig, ids)
                && |backups.value| <= |old(backups.value)| + 1
                && IsSaved(backups.value, Slug(p))
                && (forall n :: IsSaved(old(backups.value), n) ==> IsSaved(backups.value, n))
                && SKILL_FILE in p.content.files && Slug(p) in dir.folders
                && dir.folders[Slug(p)] == Folder(p.content.files, Some(Metadata(true, source)))
      ensures SameElsewhere(old(dir.folders), dir.folders, Slug(p))
      ensures dir.failures >= old(dir.failures)
      ensures r.None? ==> dir.failures > old(dir.failures) || SKILL_FILE !in p.content.files
    {
      hide InSync, CanUndo, Safe, AllSafe, SameElsewhere, SameExcept, WellNamed, IsSaved, IsSafeName;
      InSyncCanUndo(backups.value, ids, orig, dir.Now());
      NothingNewIsSafe(orig, dir.trace);
      var folder := Slug(p);
      SameElsewhereSelf(dir.folders, folder);
      if SKILL_FILE !in p.content.files {
        return None;
      }
      ghost var saved := backups.value;
      if !IsSaved(backups.value, folder) {
        var ok := PutAway(folder, ids, orig);
        if !ok {
          return None;
        }
        SavedGrows(saved, backups.value[|saved|]);
      }
      ghost var before, was := dir.folders, dir.trace;
      var ok := Overwrite(folder, p.content, source, ids, orig);
      SafeThrough(orig, old(dir.trace), was, dir.trace);
      SameElsewhereThen(old(dir.folders), before, dir.folders, folder);
      InSyncCanUndo(backups.value, ids, orig, dir.Now());
      r := if ok then Some(folder) else None;
    }

    lemma SlugsAreNotBackups(packages: seq<Package>)
      requires SlugsAreSafe()
      ensures forall i :: 0 <= i < |packages| ==> !StartsWith(Slugs(packages)[i], BACKUP_PREFIX)
    {
      forall i | 0 <= i < |packages|
        ensures !StartsWith(Slugs(packages)[i], BACKUP_PREFIX)
      {
        SafeNamesAreFolderNames(Slug(packages[i]));
      }
    }

    lemma PlacedNext(orig: Folders, now: Folders, packages: seq<Package>, i: nat, next: Folders)
      requires SlugsAreSafe() && i < |packages| && Placed(orig, now, packages, Slugs(packages), i)
      requires SameElsewhere(now, next, Slug(packages[i]))
      requires Slug(packages[i]) in next && next[Slug(packages[i])].files == packages[i].content.files
      ensures Placed(orig, next, packages, Slugs(packages), i + 1)
    {
      SlugsAreNotBackups(packages);
      PlacedMore(orig, now, packages, Slugs(packages), i, next);
    }

    /** The first `i` packages are installed, their old folders put away. */
    ghost predicate InPlace(packages: seq<Package>, i: nat, orig: Folders, ids: seq<string>)
      requires i <= |packages|
      reads this, dir
    {
      && Synced(orig, ids) && |backups.value| <= i
      && (forall k :: 0 <= k < i ==>
            IsSaved(backups.value, Slug(packages[k])) && SKILL_FILE in packages[k].content.files)
      && Placed(orig, dir.folders, packages, Slugs(packages), i)
    }

    lemma InPlaceIsUndoable(packages: seq<Package>, i: nat, orig: Folders, ids: seq<string>)
      requires i <= |packages| && InPlace(packages, i, orig, ids)
      ensures Undoable(orig, ids)
    {
    }

    lemma NothingInPlaceYet(packages: seq<Package>, orig: Folders, ids: seq<string>)
      requires Synced(orig, ids) && backups.value == [] && dir.folders == orig
      ensures InPlace(packages, 0, orig, ids)
    {
    }

    lemma OneMoreInPlace(packages: seq<Package>, i: nat, orig: Folders, ids: seq<string>, saved: seq<Saved>)
      requires i < |packages| && Synced(orig, ids) && |saved| <= i && |backups.value| <= |saved| + 1
      requires forall k :: 0 <= k < i ==>
                 IsSaved(saved, Slug(packages[k])) && SKILL_FILE in packages[k].content.files
      requires forall n :: IsSaved(saved, n) ==> IsSaved(backups.value, n)
      requires IsSaved(backups.value, Slug(packages[i])) && SKILL_FILE in packages[i].content.files
      requires Placed(orig, dir.folders, packages, Slugs(packages), i + 1)
      ensures InPlace(packages, i + 1, orig, ids)
    {
    }

    /** One package of several; unpacking it may raise. */
    method InstallNext(packages: seq<Package>, i: nat, source: string, ids: seq<string>, ghost orig: Folders)
      returns (ok: bool)
      requires SlugsAreSafe() && i < |packages| <= |ids| && InPlace(packages, i, orig, ids)
      modifies this, dir
      ensures Undoable(orig, ids)
      ensures old(dir.trace) <= dir.trace && AllSafe(orig, dir.trace, |old(dir.trace)|)
      ensures ok ==> InPlace(packages, i + 1, orig, ids)
      ensures dir.failures >= old(dir.failures)
      ensures !ok ==> dir.failures > old(dir.failures) || SKILL_FILE !in packages[i].content.files
    {
      InPlaceIsUndoable(packages, i, orig, ids);
      NothingNewIsSafe(orig, dir.trace);
      var raised: bool := *;
      if raised {
        dir.Note(false);
        return false;
      }
      ghost var saved := backups.value;
      var r := InstallFromLocalDir(packages[i], source, ids, orig);
      ok := r.Some?;
      if ok {
        PlacedNext(orig, old(dir.folders), packages, i, dir.folders);
        OneMoreInPlace(packages, i, orig, ids, saved);
      }
    }

    /** Fetching succeeded, and every package has its skill file. */
    predicate AllComplete(fetched: Option<seq<Package>>) {
      fetched.Some? && forall i :: 0 <= i < |fetched.value| ==> SKILL_FILE in fetched.value[i].content.files
    }

    /** Nothing but a failing call can keep these packages from updating the skill. */
    predicate CanBeInstalled(skill: string, fetched: Option<seq<Package>>) {
      AllComplete(fetched) && skill in Slugs(fetched.value)
    }

    lemma OneIsIncomplete(fetched: Option<seq<Package>>, i: nat)
      requires fetched.Some? ==> i < |fetched.value| && SKILL_FILE !in fetched.value[i].content.files
      ensures !AllComplete(fetched)
    {
    }

    lemma SyncedIsUndoable(orig: Folders, ids: seq<string>)
      requires Synced(orig, ids)
      ensures Undoable(orig, ids)
    {
    }

    /** Every fetched package in turn; there are none when fetching raised. */
    method Install(fetched: Option<seq<Package>>, source: string, ids: seq<string>, ghost orig: Folders)
      returns (names: Option<seq<string>>)
      requires Synced(orig, ids) && backups.value == [] && dir.folders == orig
      requires fetched.Some? ==> |fetched.value| <= |ids|
      requires SlugsAreSafe()
      modifies this, dir
      ensures Undoable(orig, ids)
      ensures old(dir.trace) <= dir.trace && AllSafe(orig, dir.trace, |old(dir.trace)|)
      ensures names.Some? ==>
                && fetched.Some? && names.value == Slugs(fetched.value)
                && InPlace(fetched.value, |fetched.value|, orig, ids)
      ensures dir.failures >= old(dir.failures)
      ensures names.None? ==> dir.failures > old(dir.failures) || !AllComplete(fetched)
    {
      hide *;
      NothingNewIsSafe(orig, dir.trace);
      SyncedIsUndoable(orig, ids);
      if fetched.None? {
        OneIsIncomplete(fetched, 0);
        return None;
      }
      var packages := fetched.value;
      NothingInPlaceYet(packages, orig, ids);
      var i, ok := 0, true;
      while ok && i < |packages|
        invariant 0 <= i <= |packages| && Undoable(orig, ids)
        invariant ok ==> InPlace(packages, i, orig, ids)
        invariant dir.failures >= old(dir.failures)
        invariant !ok ==> dir.failures > old(dir.failures) || !AllComplete(fetched)
        invariant old(dir.trace) <= dir.trace && AllSafe(orig, dir.trace, |old(dir.trace)|)
        decreases |packages| - i
      {
        ghost var was := dir.trace;
        ok := InstallNext(packages, i, source, ids, orig);
        SafeThrough(orig, old(dir.trace), was, dir.trace);
        if SKILL_FILE !in packages[i].content.files {
          OneIsIncomplete(fetched, i);
        }
        i := i + 1;
      }
      names := if ok then Some(Slugs(packages)) else None;
    }

    /** The reverse pass over `_update_backups` after an exception. */
    method RollBack(ids: seq<string>, ghost orig: Folders) returns (unrestored: seq<string>)
      requires Undoable(orig, ids)
      modifies dir
      ensures dir.Valid() && Safe(orig, dir.Now()) && dir.journal == old(dir.journal)
      ensures old(dir.trace) <= dir.trace && AllSafe(orig, dir.trace, |old(dir.trace)|)
      ensures unrestored == [] ==> dir.folders == orig
      ensures dir.failures >= old(dir.failures)
      ensures unrestored != [] ==> dir.failures > old(dir.failures)
    {
      hide CanUndo, Safe, AllSafe, StillUndone;
      unrestored := [];
      var saved := backups.value;
      NothingNewIsSafe(orig, dir.trace);
      var i := |saved|;
      while i > 0
        invariant 0 <= i <= |saved| && backups == Some(saved)
        invariant Undoable(orig, ids) && dir.journal == old(dir.journal)
        invariant dir.failures >= old(dir.failures) && (unrestored != [] ==> dir.failures > old(dir.failures))
        invariant old(dir.trace) <= dir.trace && AllSafe(orig, dir.trace, |old(dir.trace)|)
        invariant unrestored == [] ==> UndoneFrom(saved, i, dir.folders)
      {
        i := i - 1;
        ghost var was, before := dir.trace, dir.folders;
        var ok := RestoreOne(ids, orig, i);
        SafeThrough(orig, old(dir.trace), was, dir.trace);
        if !ok {
          unrestored := unrestored + [if saved[i].backup.Some? then saved[i].backup.value
                                      else saved[i].destination];
        } else if unrestored == [] {
          OneMoreUndone(saved, i, before, dir.folders);
        }
      }
      CanUndoIsSafe(saved, ids, orig, dir.Now());
      if unrestored == [] {
        UndoneIsOriginal(saved, ids, orig, dir.Now());
      }
    }

    /** Puts one backup back, or deletes one created folder. */
    method RestoreOne(ids: seq<string>, ghost orig: Folders, i: nat) returns (ok: bool)
      requires Undoable(orig, ids) && i < |backups.value|
      modifies dir
      ensures Undoable(orig, ids) && dir.journal == old(dir.journal)
      ensures old(dir.trace) <= dir.trace && AllSafe(orig, dir.trace, |old(dir.trace)|)
      ensures ok ==> backups.value[i].ToRow().key !in dir.folders
      ensures StillUndone(backups.value, old(dir.folders), dir.folders)
      ensures dir.failures >= old(dir.failures) && (!ok ==> dir.failures > old(dir.failures))
    {
      var saved := backups.value;
      if saved[i].ToRow().key !in dir.folders {
        return true;
      }
      var destination := saved[i].destination;
      ok := dir.RemoveTree(destination);
      AllMayBeScratched(saved, ids, orig, old(dir.Now()), i, dir.trace, |old(dir.trace)|);
      EntryMayBeScratched(saved, ids, orig, old(dir.Now()), i, dir.Now());
      if saved[i].backup.Some? {
        label Removed:
        EntryIsMovedBack(saved, ids, orig, dir.Now(), i);
        ok := dir.Replace(saved[i].backup.value, destination);
        StillUndoneThrough(saved, old(dir.folders), old@Removed(dir.folders), dir.folders);
        OneMoreIsSafe(orig, old@Removed(dir.trace), dir.Now());
        SafeThrough(orig, old(dir.trace), old@Removed(dir.trace), dir.trace);
      }
    }

    /** One installed folder's metadata, with the enabled flag it had before. */
    method RestoreFlag(names: seq<string>, i: nat, flags: map<string, bool>, source: string,
                       ids: seq<string>, ghost orig: Folders, ghost packages: seq<Package>)
      returns (ok: bool)
      requires Synced(orig, ids) && |names| == |packages| && i < |names|
      requires IsSaved(backups.value, names[i])
      requires Placed(orig, dir.folders, packages, names, |names|)
      requires HaveFlags(dir.folders, names, i, flags, source)
      modifies dir
      ensures Undoable(orig, ids)
      ensures old(dir.trace) <= dir.trace && AllSafe(orig, dir.trace, |old(dir.trace)|)
      ensures ok ==>
                && Synced(orig, ids)
                && Placed(orig, dir.folders, packages, names, |names|)
                && HaveFlags(dir.folders, names, i + 1, flags, source)
      ensures dir.failures >= old(dir.failures) && (!ok ==> dir.failures > old(dir.failures))
    {
      ok := dir.WriteMetadata(names[i], Metadata(FlagFor(flags, names[i]), source));
      forall k | |old(dir.trace)| <= k < |dir.trace|
        ensures Safe(orig, dir.trace[k])
      {
        SavedMayBeScratched(backups.value, ids, orig, old(dir.Now()), names[i], dir.trace[k]);
      }
      SavedMayBeScratched(backups.value, ids, orig, old(dir.Now()), names[i], dir.Now());
      if ok {
        FlagRestored(orig, old(dir.folders), packages, names, i, flags, source);
      }
    }

    /** Rewrites every installed folder's metadata. */
    method RestoreFlags(names: seq<string>, flags: map<string, bool>, source: string,
                        ids: seq<string>, ghost orig: Folders, ghost packages: seq<Package>)
      returns (ok: bool)
      requires Synced(orig, ids) && |names| == |packages|
      requires forall i :: 0 <= i < |names| ==> IsSaved(backups.value, names[i])
      requires Placed(orig, dir.folders, packages, names, |names|)
      modifies dir
      ensures Undoable(orig, ids)
      ensures old(dir.trace) <= dir.trace && AllSafe(orig, dir.trace, |old(dir.trace)|)
      ensures ok ==>
                && Placed(orig, dir.folders, packages, names, |names|)
                && HaveFlags(dir.folders, names, |names|, flags, source)
      ensures dir.failures >= old(dir.failures) && (!ok ==> dir.failures > old(dir.failures))
    {
      var i := 0;
      ok := true;
      while ok && i < |names|
        invariant 0 <= i <= |names| && Undoable(orig, ids)
        invariant ok ==> Synced(orig, ids) && Placed(orig, dir.folders, packages, names, |names|)
        invariant ok ==> HaveFlags(dir.folders, names, i, flags, source)
        invariant dir.failures >= old(dir.failures) && (!ok ==> dir.failures > old(dir.failures))
        invariant old(dir.trace) <= dir.trace && AllSafe(orig, dir.trace, |old(dir.trace)|)
        decreases |names| - i
      {
        ok := RestoreFlag(names, i, flags, source, ids, orig, packages);
        i := i + 1;
      }
    }

    /** The backups go last, when the journal no longer mentions them. */
    method DropBackups(ids: seq<string>, packages: seq<Package>, slugs: seq<string>, source: string,
                       ghost orig: Folders)
      requires dir.Valid() && backups.Some? && WellNamed(backups.value, ids)
      requires |slugs| == |packages| && Committed(orig, dir.Now(), packages, slugs, source)
      modifies dir
      ensures dir.Valid() && Committed(orig, dir.Now(), packages, slugs, source)
      ensures old(dir.trace) <= dir.trace
      ensures AllCommitted(orig, dir.trace, |old(dir.trace)|, packages, slugs, source)
      ensures dir.failures >= old(dir.failures)
      ensures SameButBackups(backups.value, old(dir.folders), dir.folders)
      ensures dir.failures > old(dir.failures) || BackupsGone(backups.value, |backups.value|, dir.folders)
    {
      hide Installed, SameExcept, IsBackup, IsSafeName;
      var saved := backups.value;
      for i := 0 to |saved|
        invariant backups == Some(saved)
        invariant dir.Valid() && Committed(orig, dir.Now(), packages, slugs, source)
        invariant old(dir.trace) <= dir.trace && dir.failures >= old(dir.failures)
        invariant AllCommitted(orig, dir.trace, |old(dir.trace)|, packages, slugs, source)
        invariant SameButBackups(saved, old(dir.folders), dir.folders)
        invariant dir.failures > old(dir.failures) || BackupsGone(saved, i, dir.folders)
      {
        if saved[i].backup.Some? {
          ghost var was, before := dir.trace, dir.folders;
          var _ := dir.RemoveTree(saved[i].backup.value);
          OneMoreBackup(saved, i, old(dir.folders), before, dir.folders);
          StillCommitted(orig, before, was, dir.trace, |old(dir.trace)|, packages, slugs, source,
                         saved[i].backup.value);
          CommittedIgnoresBackups(orig, before, dir.Now(), packages, slugs, source, saved[i].backup.value);
        }
      }
    }

    /** Commits by deleting the journal, if that can be done. */
    method Commit(ids: seq<string>, packages: seq<Package>, slugs: seq<string>, source: string,
                  ghost orig: Folders)
      returns (ok: bool, ghost commit: nat)
      requires Undoable(orig, ids)
      requires |slugs| == |packages| && Installed(orig, dir.folders, packages, slugs, source)
      modifies dir
      ensures dir.Valid() && old(dir.trace) <= dir.trace
      ensures ok ==> |old(dir.trace)| == commit < |dir.trace|
      ensures ok ==> forall k :: commit <= k < |dir.trace| ==>
                Committed(orig, dir.trace[k], packages, slugs, source)
      ensures !ok ==> Undoable(orig, ids) && AllSafe(orig, dir.trace, |old(dir.trace)|)
      ensures dir.failures >= old(dir.failures) && (!ok ==> dir.failures > old(dir.failures))
      ensures ok ==> dir.failures > old(dir.failures) || Cleared(orig, dir.folders)
    {
      commit := |dir.trace|;
      ok := dir.UnlinkJournal();
      if ok {
        DropBackups(ids, packages, slugs, source, orig);
        if BackupsGone(backups.value, |backups.value|, dir.folders) {
          GoneIsCleared(backups.value, ids, orig, old(dir.Now()), dir.folders);
        }
        var _ := dir.UnlinkJournal();
      }
    }

    /** Installs, checks that the skill itself came along, and restores the flags. */
    method TryInstall(skill: string, fetched: Option<seq<Package>>, flags: map<string, bool>,
                      source: string, ids: seq<string>, ghost orig: Folders)
      returns (names: Option<seq<string>>)
      requires Synced(orig, ids) && backups.value == [] && dir.folders == orig
      requires fetched.Some? ==> |fetched.value| <= |ids|
      requires SlugsAreSafe()
      requires forall n :: FlagFor(flags, n) == EnabledBefore(orig, n)
      modifies this, dir
      ensures Undoable(orig, ids)
      ensures old(dir.trace) <= dir.trace && AllSafe(orig, dir.trace, |old(dir.trace)|)
      ensures names.Some? ==>
                && fetched.Some? && names.value == Slugs(fetched.value) && skill in names.value
                && Installed(orig, dir.folders, fetched.value, names.value, source)
      ensures dir.failures >= old(dir.failures)
      ensures names.None? ==> dir.failures > old(dir.failures) || !CanBeInstalled(skill, fetched)
    {
      names := Install(fetched, source, ids, orig);
      if names.None? || skill !in names.value {
        return None;
      }
      var ok := RestoreFlags(names.value, flags, source, ids, orig, fetched.value);
      if !ok {
        return None;
      }
      SlugsAreNotBackups(fetched.value);
      PlacedIsInstalled(orig, dir.folders, fetched.value, names.value, flags, source);
    }

    /** The exception handler and the `finally` block. */
    method Abort(ids: seq<string>, ghost orig: Folders) returns (outcome: Outcome)
      requires Undoable(orig, ids)
      modifies this, dir
      ensures dir.Valid() && outcome in {RolledBack, Unrestored}
      ensures old(dir.trace) <= dir.trace && AllSafe(orig, dir.trace, |old(dir.trace)|)
      ensures outcome.RolledBack? ==> dir.folders == orig
      ensures outcome.RolledBack? ==> dir.journal.Missing? || dir.failures > old(dir.failures)
      ensures outcome.Unrestored? ==> dir.journal == old(dir.journal)
      ensures Safe(orig, dir.Now())
      ensures dir.failures >= old(dir.failures) && (outcome.Unrestored? ==> dir.failures > old(dir.failures))
    {
      var unrestored := RollBack(ids, orig);
      if unrestored != [] {
        outcome := Unrestored;
      } else {
        outcome := RolledBack;
        UnlinkingRestoredIsSafe(orig, dir.Now());
        var _ := dir.UnlinkJournal();
      }
      backups := None;
    }

    /**
     The `try` statement: before the commit point every disk is recoverable to the old folders, from
     the commit point on every disk loads exactly the new ones.
     */
    method ReplaceSkill(skill: string, fetched: Option<seq<Package>>, flags: map<string, bool>,
                        source: string, ids: seq<string>, ghost orig: Folders)
      returns (outcome: Outcome, ghost commit: nat)
      requires Synced(orig, ids) && backups.value == [] && dir.folders == orig
      requires fetched.Some? ==> |fetched.value| <= |ids|
      requires SlugsAreSafe()
      requires forall n :: FlagFor(flags, n) == EnabledBefore(orig, n)
      modifies this, dir
      ensures dir.Valid() && old(dir.trace) <= dir.trace
      ensures outcome in {Updated, RolledBack, Unrestored}
      ensures outcome.Updated? ==>
                && fetched.Some? && skill in Slugs(fetched.value)
                && |old(dir.trace)| <= commit < |dir.trace|
                && (forall k :: |old(dir.trace)| <= k < commit ==> Safe(orig, dir.trace[k]))
                && (forall k :: commit <= k < |dir.trace| ==>
                      Committed(orig, dir.trace[k], fetched.value, Slugs(fetched.value), source))
      ensures !outcome.Updated? ==> AllSafe(orig, dir.trace, |old(dir.trace)|) && Safe(orig, dir.Now())
      ensures outcome.RolledBack? ==> dir.folders == orig
      ensures outcome.RolledBack? ==> dir.journal.Missing? || dir.failures > old(dir.failures)
      ensures outcome.Updated? ==> dir.failures > old(dir.failures) || Cleared(orig, dir.folders)
      ensures dir.failures >= old(dir.failures)
      ensures !outcome.Updated? ==> dir.failures > old(dir.failures) || !CanBeInstalled(skill, fetched)
    {
      hide Synced, Undoable, Installed, Committed, CanBeInstalled, Safe, FlagFor, EnabledBefore, IsSafeName;
      commit := 0;
      var names := TryInstall(skill, fetched, flags, source, ids, orig);
      if names.Some? {
        var ok;
        ok, commit := Commit(ids, fetched.value, names.value, source, orig);
        if ok {
          backups := None;
          return Updated, commit;
        }
      }
      outcome := Abort(ids, orig);
    }

    /** What `update` reads of the folder it is asked to update. */
    predicate IsUpdatable(folders: Folders, skill: string) {
      skill in folders && folders[skill].meta.Some? && folders[skill].meta.value.source != ""
    }

    /** The enabled flags read from the folders before anything changes. */
    function ReadFlags(folders: Folders): map<string, bool> {
      map n | n in folders && folders[n].meta.Some? :: folders[n].meta.value.enabled
    }

    /** The whole update. */
    method Update(skill: string, fetched: Option<seq<Package>>, ids: seq<string>)
      returns (outcome: Outcome, ghost commit: nat)
      requires dir.Valid() && FreshIds(ids, dir.folders)
      requires fetched.Some? ==> |fetched.value| <= |ids|
      requires SlugsAreSafe()
      modifies this, dir
      ensures dir.Valid() && old(dir.trace) <= dir.trace
      ensures outcome.NotUpdatable? <==> !IsUpdatable(old(dir.folders), skill)
      ensures outcome.Blocked? <==> !outcome.NotUpdatable? && !old(dir.journal).Missing?
      ensures outcome.NotUpdatable? || outcome.Blocked? ==>
                dir.trace == old(dir.trace) && dir.Now() == old(dir.Now())
      ensures outcome.Updated? ==>
                && fetched.Some? && skill in Slugs(fetched.value)
                && |old(dir.trace)| <= commit < |dir.trace|
                && (forall k :: |old(dir.trace)| <= k < commit ==> Safe(old(dir.folders), dir.trace[k]))
                && (forall k :: commit <= k < |dir.trace| ==>
                      Committed(old(dir.folders), dir.trace[k], fetched.value, Slugs(fetched.value),
                                old(dir.folders)[skill].meta.value.source))
      ensures outcome.RolledBack? || outcome.Unrestored? ==>
                AllSafe(old(dir.folders), dir.trace, |old(dir.trace)|) && Safe(old(dir.folders), dir.Now())
      ensures outcome.RolledBack? ==> dir.folders == old(dir.folders)
      ensures dir.failures >= old(dir.failures)
      ensures outcome.Updated? ==> dir.journal.Missing?
      ensures outcome.RolledBack? ==> dir.journal.Missing? || dir.failures > old(dir.failures)
      ensures outcome.Updated? ==> dir.failures > old(dir.failures) || Cleared(old(dir.folders), dir.folders)
      ensures outcome.RolledBack? || outcome.Unrestored? ==>
                dir.failures > old(dir.failures) || !CanBeInstalled(skill, fetched)
    {
      if !IsUpdatable(dir.folders, skill) {
        return NotUpdatable, 0;
      }
      if !dir.journal.Missing? {
        return Blocked, 0;
      }
      backups := Some([]);
      NoJournalMeansOriginal(dir.folders, dir.Now());
      var meta := dir.folders[skill].meta.value;
      outcome, commit := ReplaceSkill(skill, fetched, ReadFlags(dir.folders)[skill := meta.enabled],
                                      meta.source, ids, dir.folders);
    }

    /** An update that was rolled back does not stand in the way of the next one, unless a call failed in it. */
    method UpdateAfterRollback(skill: string, fetched: Option<seq<Package>>, ids: seq<string>,
                               next: string, nextFetched: Option<seq<Package>>, nextIds: seq<string>)
      returns (first: Outcome, second: Option<Outcome>, ghost failed: bool)
      requires dir.Valid() && FreshIds(ids, dir.folders) && FreshIds(nextIds, dir.folders)
      requires fetched.Some? ==> |fetched.value| <= |ids|
      requires nextFetched.Some? ==> |nextFetched.value| <= |nextIds|
      requires SlugsAreSafe()
      modifies this, dir
      ensures second.Some? <==> first.RolledBack?
      ensures second == Some(Blocked) ==> failed
      ensures second == Some(NotUpdatable) ==> !IsUpdatable(old(dir.folders), next)
      ensures failed ==> dir.failures > old(dir.failures)
    {
      ghost var commit;
      ghost var before := dir.failures;
      first, commit := Update(skill, fetched, ids);
      failed := dir.failures > before;
      second := None;
      if first.RolledBack? {
        var outcome;
        outcome, commit := Update(next, nextFetched, nextIds);
        second := Some(outcome);
      }
    }
  }
}
