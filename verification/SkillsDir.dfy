/**
 The skills directory as the operating system changes it. Every change that a crash could expose is
 appended to `trace`, so a process death is "stop at any element of the trace". Each operation may
 fail, as the calls it stands for may raise `OSError`; `failures` counts how often one did.
 */
module SkillsDirectory {
  import opened Options
  import opened SkillNames
  import opened SkillStore

  /** Every disk from position `from` on could be what a crash leaves. */
  ghost predicate AllSafe(orig: Folders, trace: seq<Disk>, from: nat) {
    forall k :: from <= k < |trace| ==> Safe(orig, trace[k])
  }

  lemma NothingNewIsSafe(orig: Folders, trace: seq<Disk>)
    ensures AllSafe(orig, trace, |trace|)
  {
  }

  lemma OneMoreIsSafe(orig: Folders, trace: seq<Disk>, disk: Disk)
    requires Safe(orig, disk)
    ensures trace <= trace + [disk] && AllSafe(orig, trace + [disk], |trace|)
  {
  }

  lemma SafeThrough(orig: Folders, first: seq<Disk>, middle: seq<Disk>, last: seq<Disk>)
    requires first <= middle <= last
    requires AllSafe(orig, middle, |first|) && AllSafe(orig, last, |middle|)
    ensures first <= last && AllSafe(orig, last, |first|)
  {
    forall k | |first| <= k < |last|
      ensures Safe(orig, last[k])
    {
      if k < |middle| {
        assert last[k] == middle[k];
      }
    }
  }

  class SkillsDir {
    var folders: Folders
    var journal: Journal
    ghost var trace: seq<Disk>
    ghost var failures: nat

    ghost function Now(): Disk
      reads this
    {
      Disk(folders, journal)
    }

    ghost predicate Valid()
      reads this
    {
      trace != [] && trace[|trace| - 1] == Now()
    }

    constructor (folders: Folders, journal: Journal)
      ensures Valid() && this.folders == folders && this.journal == journal
      ensures trace == [Now()] && failures == 0
    {
      this.folders, this.journal := folders, journal;
      trace := [Disk(folders, journal)];
      failures := 0;
    }

    /** Counts a call that failed. */
    ghost method Note(ok: bool)
      requires Valid()
      modifies this`failures
      ensures Valid() && failures == old(failures) + if ok then 0 else 1
    {
      failures := failures + if ok then 0 else 1;
    }

    /** `os.replace`: all or nothing. */
    method Replace(from: string, to: string) returns (ok: bool)
      requires Valid() && from in folders
      modifies this
      ensures Valid() && trace == old(trace) + [Now()] && journal == old(journal)
      ensures folders == if ok then Renamed(old(folders), from, to) else old(folders)
      ensures failures == old(failures) + if ok then 0 else 1
    {
      ok := *;
      if ok {
        folders := Renamed(folders, from, to);
      }
      trace := trace + [Now()];
      Note(ok);
    }

    /** Leaves something arbitrary, or nothing, at `name`, any number of times. */
    method Scramble(name: string)
      requires Valid()
      modifies this
      ensures Valid() && journal == old(journal)
      ensures SameExcept(old(folders), folders, name)
      ensures old(trace) <= trace
      ensures forall k :: |old(trace)| <= k < |trace| ==>
                trace[k].journal == journal && SameExcept(old(folders), trace[k].folders, name)
      ensures failures == old(failures)
    {
      var rounds: nat := *;
      while rounds > 0
        invariant Valid() && journal == old(journal) && failures == old(failures)
        invariant SameExcept(old(folders), folders, name)
        invariant old(trace) <= trace
        invariant forall k :: |old(trace)| <= k < |trace| ==>
                    trace[k].journal == journal && SameExcept(old(folders), trace[k].folders, name)
      {
        var present: bool := *;
        var content: Folder := *;
        ghost var before := folders;
        folders := if present then folders[name := content] else folders - {name};
        SameExceptTransitive(old(folders), before, folders, name);
        trace := trace + [Now()];
        rounds := rounds - 1;
      }
    }

    /** `shutil.rmtree`: may stop half way, leaving part of the folder. */
    method RemoveTree(name: string) returns (gone: bool)
      requires Valid()
      modifies this
      ensures Valid() && journal == old(journal)
      ensures gone <==> name !in folders
      ensures failures == old(failures) + if gone then 0 else 1
      ensures SameExcept(old(folders), folders, name)
      ensures old(trace) <= trace
      ensures forall k :: |old(trace)| <= k < |trace| ==>
                trace[k].journal == journal && SameExcept(old(folders), trace[k].folders, name)
    {
      if name !in folders {
        return true;
      }
      Scramble(name);
      var finished: bool := *;
      if finished {
        ghost var before := folders;
        folders := folders - {name};
        SameExceptTransitive(old(folders), before, folders, name);
        trace := trace + [Now()];
      }
      gone := name !in folders;
      Note(gone);
    }

    /** `shutil.copytree`: refuses an existing destination, may stop half way. */
    method CopyTree(content: Folder, name: string) returns (ok: bool)
      requires Valid()
      modifies this
      ensures Valid() && journal == old(journal)
      ensures ok ==> folders == old(folders)[name := content]
      ensures failures == old(failures) + if ok then 0 else 1
      ensures SameExcept(old(folders), folders, name)
      ensures old(trace) <= trace
      ensures forall k :: |old(trace)| <= k < |trace| ==>
                trace[k].journal == journal && SameExcept(old(folders), trace[k].folders, name)
    {
      if name in folders {
        Note(false);
        return false;
      }
      Scramble(name);
      ok := *;
      if ok {
        SameExceptAssigned(old(folders), folders, name, content);
        folders := folders[name := content];
        trace := trace + [Now()];
      }
      Note(ok);
    }

    /** Opens the folder's metadata file for writing: a failure may leave it unreadable. */
    method WriteMetadata(name: string, meta: Metadata) returns (ok: bool)
      requires Valid()
      modifies this
      ensures Valid() && journal == old(journal)
      ensures ok ==> name in old(folders)
      ensures failures == old(failures) + if ok then 0 else 1
      ensures ok ==> folders == old(folders)[name := old(folders)[name].(meta := Some(meta))]
      ensures SameExcept(old(folders), folders, name)
      ensures old(trace) <= trace
      ensures forall k :: |old(trace)| <= k < |trace| ==>
                trace[k].journal == journal && SameExcept(old(folders), trace[k].folders, name)
    {
      if name !in folders {
        Note(false);
        return false;
      }
      var torn: Option<Metadata> := *;
      var files := folders[name].files;
      folders := folders[name := Folder(files, torn)];
      trace := trace + [Now()];
      ok := *;
      if ok {
        folders := folders[name := Folder(files, Some(meta))];
        trace := trace + [Now()];
        assert folders == old(folders)[name := old(folders)[name].(meta := Some(meta))];
      }
      Note(ok);
    }

    /** `write_json_atomic` on the journal: a temporary file and one rename. */
    method WriteJournal(rows: seq<Row>) returns (ok: bool)
      requires Valid()
      modifies this
      ensures Valid() && trace == old(trace) + [Now()] && folders == old(folders)
      ensures journal == if ok then Rows(rows) else old(journal)
      ensures failures == old(failures) + if ok then 0 else 1
    {
      ok := *;
      if ok {
        journal := Rows(rows);
      }
      trace := trace + [Now()];
      Note(ok);
    }

    /** `os.unlink` on the journal; a missing journal counts as unlinked. */
    method UnlinkJournal() returns (ok: bool)
      requires Valid()
      modifies this
      ensures Valid() && trace == old(trace) + [Now()] && folders == old(folders)
      ensures journal == if ok then Missing else old(journal)
      ensures old(journal) == Missing ==> ok
      ensures failures == old(failures) + if ok then 0 else 1
    {
      ok := *;
      if ok || journal.Missing? {
        ok := true;
        journal := Missing;
      }
      trace := trace + [Now()];
      Note(ok);
    }
  }
}
