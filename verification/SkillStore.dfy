/**
 The skills directory with its undo journal: what the journal rows mean, and the disk changes
 under which they keep meaning the same pre-update folders.
 */
module SkillStore {
  import opened Options
  import opened SkillNames

  const SKILL_FILE := "SKILL.md"

  datatype Metadata = Metadata(enabled: bool, source: string)

  /** A skill folder: its files, and its metadata file when that can be read. */
  datatype Folder = Folder(files: map<string, string>, meta: Option<Metadata>)

  type Folders = map<string, Folder>

  /** A journal row: backup folder to original folder, or a created folder to null. */
  datatype Row = Row(key: string, original: Option<string>) {
    /** The folder whose content the row may be asked to undo. */
    function Target(): string {
      if original.Some? then original.value else key
    }

    predicate Touches(name: string) {
      name == key || original == Some(name)
    }
  }

  datatype Journal = Missing | Malformed | Rows(rows: seq<Row>)

  datatype Disk = Disk(folders: Folders, journal: Journal) {
    function Logged(): seq<Row> {
      if journal.Rows? then journal.rows else []
    }
  }

  // ---------- what startup recovery demands of a row ----------

  predicate IsFolderName(name: string) {
    IsBasename(name) && name !in {"", ".", ".."} && !StartsWith(name, RESERVED_PREFIX)
  }

  predicate IsAccepted(row: Row) {
    match row.original
    case None => IsFolderName(row.key)
    case Some(original) =>
      StartsWith(row.key, BACKUP_PREFIX) && IsBasename(row.key) && IsFolderName(original)
  }

  lemma SafeNamesAreFolderNames(name: string)
    requires IsSafeName(name)
    ensures IsFolderName(name) && !StartsWith(name, BACKUP_PREFIX)
  {
    assert RESERVED_PREFIX[0] == '.' && BACKUP_PREFIX[0] == '.' && "."[0] == '.' && ".."[0] == '.';
  }

  lemma BackupsAreReserved(name: string)
    requires StartsWith(name, BACKUP_PREFIX)
    ensures StartsWith(name, RESERVED_PREFIX)
  {
    assert BACKUP_PREFIX[..|RESERVED_PREFIX|] == RESERVED_PREFIX;
    assert name[..|RESERVED_PREFIX|] == BACKUP_PREFIX[..|RESERVED_PREFIX|];
  }

  // ---------- the meaning of a journal ----------

  ghost predicate SameAt(a: Folders, b: Folders, name: string) {
    (name in a <==> name in b) && (name in a ==> a[name] == b[name])
  }

  /** Nothing but `name` differs; `name` itself may be absent or half-written. */
  ghost predicate SameExcept(a: Folders, b: Folders, name: string) {
    forall n :: n != name ==> SameAt(a, b, n)
  }

  lemma SameExceptTransitive(a: Folders, b: Folders, c: Folders, name: string)
    requires SameExcept(a, b, name) && SameExcept(b, c, name)
    ensures SameExcept(a, c, name)
  {
    forall n | n != name
      ensures SameAt(a, c, n)
    {
      assert SameAt(a, b, n) && SameAt(b, c, n);
    }
  }

  lemma SameExceptRemoved(a: Folders, b: Folders, name: string)
    requires SameExcept(a, b, name) && name !in b
    ensures b == a - {name}
  {
    forall n | n != name
      ensures n in a <==> n in b
      ensures n in a ==> a[n] == b[n]
    {
      assert SameAt(a, b, n);
    }
  }

  lemma SameExceptAssigned(a: Folders, b: Folders, name: string, content: Folder)
    requires SameExcept(a, b, name)
    ensures b[name := content] == a[name := content]
  {
    forall n | n != name
      ensures n in a <==> n in b
      ensures n in a ==> a[n] == b[n]
    {
      assert SameAt(a, b, n);
    }
  }

  ghost predicate Apart(r: Row, s: Row) {
    forall n :: r.Touches(n) ==> !s.Touches(n)
  }

  /** Rows that recovery accepts and that never speak about the same folder twice. */
  ghost predicate WellFormed(rows: seq<Row>) {
    && (forall i :: 0 <= i < |rows| ==> IsAccepted(rows[i]))
    && (forall i, j :: 0 <= i < j < |rows| ==> Apart(rows[i], rows[j]))
  }

  ghost predicate Touched(rows: seq<Row>, name: string) {
    exists i :: 0 <= i < |rows| && rows[i].Touches(name)
  }

  /** One row tells the truth: the original is in the backup, or still in its own place. */
  ghost predicate Holds(row: Row, orig: Folders, now: Folders) {
    && row.key !in orig
    && (row.original.Some? ==>
          && row.original.value in orig
          && (if row.key in now
              then now[row.key] == orig[row.original.value]
              else SameAt(orig, now, row.original.value)))
  }

  /** The rows suffice to turn `now` back into `orig`. */
  ghost predicate Undoes(rows: seq<Row>, orig: Folders, now: Folders) {
    && WellFormed(rows)
    && (forall i :: 0 <= i < |rows| ==> Holds(rows[i], orig, now))
    && (forall n :: !Touched(rows, n) ==> SameAt(orig, now, n))
  }

  /** A disk from which startup recovery gets the folders `orig` back. */
  ghost predicate Safe(orig: Folders, disk: Disk) {
    !disk.journal.Malformed? && Undoes(disk.Logged(), orig, disk.folders)
  }

  predicate IsUndone(row: Row, now: Folders) {
    row.key !in now
  }

  predicate AllUndone(rows: seq<Row>, now: Folders) {
    forall i :: 0 <= i < |rows| ==> IsUndone(rows[i], now)
  }

  function Renamed(folders: Folders, from: string, to: string): Folders
    requires from in folders
  {
    (folders - {from})[to := folders[from]]
  }

  // ---------- changes that keep the journal true ----------

  lemma KeyIsNotTarget(row: Row)
    requires IsAccepted(row) && row.original.Some?
    ensures row.key != row.original.value
  {
    BackupsAreReserved(row.key);
  }

  lemma RowIsTouched(rows: seq<Row>, i: nat, name: string)
    requires i < |rows| && rows[i].Touches(name)
    ensures Touched(rows, name)
  {
  }

  /** Rows other than `i` and folders outside the journal do not notice a change within row `i`. */
  lemma LocalChange(rows: seq<Row>, orig: Folders, now: Folders, i: nat, next: Folders)
    requires Undoes(rows, orig, now) && i < |rows|
    requires forall n :: !rows[i].Touches(n) ==> SameAt(now, next, n)
    requires Holds(rows[i], orig, next)
    ensures Undoes(rows, orig, next)
  {
    forall j | 0 <= j < |rows|
      ensures Holds(rows[j], orig, next)
    {
      if j != i {
        assert Apart(rows[i], rows[j]) || Apart(rows[j], rows[i]);
        assert rows[j].Touches(rows[j].key) && rows[j].Touches(rows[j].Target());
        assert SameAt(now, next, rows[j].key) && SameAt(now, next, rows[j].Target());
      }
    }
    forall n | !Touched(rows, n)
      ensures SameAt(orig, next, n)
    {
      assert !rows[i].Touches(n);
      assert SameAt(now, next, n) && SameAt(orig, now, n);
    }
  }

  /** A half-deleted or half-copied destination is harmless once its original is in the backup. */
  lemma ScratchTarget(rows: seq<Row>, orig: Folders, now: Folders, i: nat, next: Folders)
    requires Undoes(rows, orig, now) && i < |rows|
    requires rows[i].original.Some? ==> rows[i].key in now
    requires SameExcept(now, next, rows[i].Target())
    ensures Undoes(rows, orig, next)
  {
    var row := rows[i];
    if row.original.Some? {
      KeyIsNotTarget(row);
      assert SameAt(now, next, row.key);
    }
    forall n | !row.Touches(n)
      ensures SameAt(now, next, n)
    {
    }
    LocalChange(rows, orig, now, i, next);
  }

  /** Renaming the original to its backup, and the backup to its original, both keep the row true. */
  lemma MoveAway(rows: seq<Row>, orig: Folders, now: Folders, i: nat)
    requires Undoes(rows, orig, now) && i < |rows| && rows[i].original.Some?
    requires rows[i].key !in now
    ensures rows[i].original.value in now
    ensures Undoes(rows, orig, Renamed(now, rows[i].original.value, rows[i].key))
  {
    KeyIsNotTarget(rows[i]);
    LocalChange(rows, orig, now, i, Renamed(now, rows[i].original.value, rows[i].key));
  }

  lemma MoveBack(rows: seq<Row>, orig: Folders, now: Folders, i: nat)
    requires Undoes(rows, orig, now) && i < |rows| && rows[i].original.Some?
    requires rows[i].key in now
    ensures Undoes(rows, orig, Renamed(now, rows[i].key, rows[i].original.value))
  {
    KeyIsNotTarget(rows[i]);
    LocalChange(rows, orig, now, i, Renamed(now, rows[i].key, rows[i].original.value));
  }

  /** A journal with nothing left to undo describes exactly the original folders. */
  lemma UndoneMeansOriginal(rows: seq<Row>, orig: Folders, now: Folders)
    requires Undoes(rows, orig, now) && AllUndone(rows, now)
    ensures now == orig
  {
    forall n
      ensures SameAt(orig, now, n)
    {
      if Touched(rows, n) {
        var i :| 0 <= i < |rows| && rows[i].Touches(n);
        assert Holds(rows[i], orig, now) && IsUndone(rows[i], now);
      }
    }
    assert forall n :: n in now ==> SameAt(orig, now, n);
    assert forall n :: n in orig ==> SameAt(orig, now, n);
  }

  /** Logging a folder before it is touched keeps the journal true. */
  lemma LogRow(rows: seq<Row>, orig: Folders, now: Folders, row: Row)
    requires Undoes(rows, orig, now) && IsAccepted(row)
    requires forall n :: row.Touches(n) ==> !Touched(rows, n)
    requires row.key !in now
    requires row.original.Some? ==> row.original.value in now
    ensures Undoes(rows + [row], orig, now)
  {
    var more := rows + [row];
    assert SameAt(orig, now, row.key) && SameAt(orig, now, row.Target()) by {
      assert row.Touches(row.key) && row.Touches(row.Target());
    }
    forall i | 0 <= i < |rows|
      ensures Apart(rows[i], row)
    {
      forall n | rows[i].Touches(n)
        ensures !row.Touches(n)
      {
        RowIsTouched(rows, i, n);
      }
    }
    forall n | !Touched(more, n)
      ensures SameAt(orig, now, n)
    {
      forall i | 0 <= i < |rows|
        ensures !rows[i].Touches(n)
      {
        assert more[i] == rows[i];
      }
    }
  }

  /** With no journal, being recoverable means being the original folders already. */
  lemma NoJournalMeansOriginal(orig: Folders, disk: Disk)
    requires disk.journal.Missing?
    ensures Safe(orig, disk) <==> disk.folders == orig
  {
    if Safe(orig, disk) {
      UndoneMeansOriginal([], orig, disk.folders);
    }
  }
}
