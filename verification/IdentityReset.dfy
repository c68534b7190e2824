/**
 * Moving a node's identity and runtime state aside (credentials.ts), on a disk whose
 * directory entries become durable only when the directory is synced (durable-write.ts).
 *
 * A directory entry is a nonempty list of versions: the last is what processes see, and a
 * power loss may bring back any version since the last sync, independently for each entry.
 */
module IdentityReset {
  import opened Common

  datatype File = Credentials | PendingSecret | Database | Wal | Shm
  datatype Dir = CredentialsDir | DataDir

  /** What a state-only reset and an identity reset move, in order. */
  const STATE_FILES: seq<File> := [Database, Wal, Shm]
  const IDENTITY_FILES: seq<File> := [Credentials, PendingSecret, Database, Wal, Shm]

  datatype Journal = Journal(stamp: nat, files: seq<File>)

  /** The names one file can be found under: its own, and `.replaced.<stamp>` for each reset. */
  datatype Slot = Slot(live: Option<string>, archived: map<nat, string>)

  type Versions = s: seq<Slot> | |s| > 0 witness [Slot(None, map[])]

  type JournalVersions = s: seq<Option<Journal>> | |s| > 0 witness [None]

  /** One list of versions for each file. */
  datatype Slots = Slots(credentials: Versions, pendingSecret: Versions, database: Versions, wal: Versions,
                         shm: Versions) {
    function Of(f: File): Versions {
      match f
      case Credentials => credentials
      case PendingSecret => pendingSecret
      case Database => database
      case Wal => wal
      case Shm => shm
    }

    function With(f: File, v: Versions): Slots {
      match f
      case Credentials => this.(credentials := v)
      case PendingSecret => this.(pendingSecret := v)
      case Database => this.(database := v)
      case Wal => this.(wal := v)
      case Shm => this.(shm := v)
    }
  }

  /** `separate`: credentials and database live in different directories. The journal sits beside the credentials. */
  datatype Disk = Disk(separate: bool, journal: JournalVersions, slots: Slots)

  function DirOf(separate: bool, f: File): Dir {
    if separate && f in STATE_FILES then DataDir else CredentialsDir
  }

  function Visible(d: Disk, f: File): Slot { Last(d.slots.Of(f)) }

  /** Renaming a slot's live file to its archive name; an absent file is skipped. */
  function Moved(slot: Slot, stamp: nat): Slot {
    if slot.live.Some? then Slot(None, slot.archived[stamp := slot.live.value]) else slot
  }

  // ----- Disk primitives -----

  function Settled(d: Disk, dir: Dir, f: File): Versions {
    if DirOf(d.separate, f) == dir then [Visible(d, f)] else d.slots.Of(f)
  }

  function Synced(d: Disk, dir: Dir): Disk {
    d.(journal := if dir == CredentialsDir then [Last(d.journal)] else d.journal,
       slots := Slots(Settled(d, dir, Credentials), Settled(d, dir, PendingSecret), Settled(d, dir, Database),
                      Settled(d, dir, Wal), Settled(d, dir, Shm)))
  }

  function Renamed(d: Disk, stamp: nat, f: File): Disk {
    if Visible(d, f).live.Some? then d.(slots := d.slots.With(f, d.slots.Of(f) + [Moved(Visible(d, f), stamp)])) else d
  }

  /** A file renamed into place, or deleted: processes see it, no directory is synced yet. */
  function Written(d: Disk, f: File, content: Option<string>): Disk {
    d.(slots := d.slots.With(f, d.slots.Of(f) + [Slot(content, Visible(d, f).archived)]))
  }

  datatype Instr = Sync(dir: Dir) | Move(file: File) | Unlink

  function Exec(d: Disk, stamp: nat, i: Instr): Disk {
    match i
    case Sync(dir) => Synced(d, dir)
    case Move(f) => Renamed(d, stamp, f)
    case Unlink => d.(journal := d.journal + [None])
  }

  /** The directories a reset covers, each once. */
  function DirsOf(separate: bool, files: seq<File>): (dirs: seq<Dir>)
    ensures forall f <- files :: DirOf(separate, f) in dirs
  {
    if |files| == 0 then []
    else
      var dirs := DirsOf(separate, files[..|files| - 1]);
      var last := DirOf(separate, Last(files));
      if last in dirs then dirs else dirs + [last]
  }

  function Moves(files: seq<File>): seq<Instr> { seq(|files|, i requires 0 <= i < |files| => Move(files[i])) }

  function Syncs(dirs: seq<Dir>): seq<Instr> { seq(|dirs|, i requires 0 <= i < |dirs| => Sync(dirs[i])) }

  /** What a resumed reset executes: rename, sync every directory covered, drop the journal, sync again. */
  function Resumption(separate: bool, j: Journal): (p: seq<Instr>)
    ensures |p| == |j.files| + |DirsOf(separate, j.files)| + 2
  {
    Moves(j.files) + Syncs(DirsOf(separate, j.files)) + [Unlink, Sync(CredentialsDir)]
  }

  /** A whole reset once its journal entry has been renamed into place. */
  function Program(separate: bool, j: Journal): (p: seq<Instr>)
    ensures |p| == |j.files| + |DirsOf(separate, j.files)| + 3
  {
    [Sync(CredentialsDir)] + Resumption(separate, j)
  }

  function ExecAll(d: Disk, stamp: nat, p: seq<Instr>): Disk {
    if |p| == 0 then d else Exec(ExecAll(d, stamp, p[..|p| - 1]), stamp, Last(p))
  }

  lemma {:induction false} ExecAppend(d: Disk, stamp: nat, p: seq<Instr>, q: seq<Instr>)
    ensures ExecAll(d, stamp, p + q) == ExecAll(ExecAll(d, stamp, p), stamp, q)
  {
    if |q| == 0 {
      assert p + q == p;
    } else {
      ExecAppend(d, stamp, p, q[..|q| - 1]);
      assert (p + q)[..|p + q| - 1] == p + q[..|q| - 1];
    }
  }

  lemma ExecSnoc(d: Disk, stamp: nat, p: seq<Instr>, i: Instr)
    ensures ExecAll(d, stamp, p + [i]) == Exec(ExecAll(d, stamp, p), stamp, i)
  {
    assert (p + [i])[..|p|] == p;
  }

  /** The files archiveWithStamp reports: those it found and renamed, in order. */
  function Found(d: Disk, stamp: nat, files: seq<File>): seq<File> {
    if |files| == 0 then []
    else
      var before := files[..|files| - 1];
      Found(d, stamp, before)
      + if Visible(ExecAll(d, stamp, Moves(before)), Last(files)).live.Some? then [Last(files)] else []
  }

  predicate SameVisible(d: Disk, e: Disk) { forall f: File :: Visible(d, f) == Visible(e, f) }

  lemma RenamedSlot(d: Disk, stamp: nat, f: File, g: File)
    ensures Visible(Renamed(d, stamp, f), g) == if g == f then Moved(Visible(d, f), stamp) else Visible(d, g)
  {
  }

  lemma RenamedVisible(d: Disk, e: Disk, stamp: nat, f: File)
    requires SameVisible(d, e)
    ensures SameVisible(Renamed(d, stamp, f), Renamed(e, stamp, f))
  {
    forall g: File ensures Visible(Renamed(d, stamp, f), g) == Visible(Renamed(e, stamp, f), g) {
      RenamedSlot(d, stamp, f, g);
      RenamedSlot(e, stamp, f, g);
    }
  }

  /** What is found and moved depends on what is visible, not on what is durable. */
  lemma {:induction false} FoundIsVisible(d: Disk, e: Disk, stamp: nat, files: seq<File>)
    requires SameVisible(d, e)
    ensures SameVisible(ExecAll(d, stamp, Moves(files)), ExecAll(e, stamp, Moves(files)))
    ensures Found(d, stamp, files) == Found(e, stamp, files)
  {
    if |files| > 0 {
      var n := |files| - 1;
      FoundIsVisible(d, e, stamp, files[..n]);
      assert files[..n + 1] == files;
      MovesSnoc(files, n);
      ExecSnoc(d, stamp, Moves(files[..n]), Move(files[n]));
      ExecSnoc(e, stamp, Moves(files[..n]), Move(files[n]));
      RenamedVisible(ExecAll(d, stamp, Moves(files[..n])), ExecAll(e, stamp, Moves(files[..n])), stamp, files[n]);
    }
  }

  lemma MovesSnoc(files: seq<File>, n: nat)
    requires n < |files|
    ensures Moves(files[..n + 1]) == Moves(files[..n]) + [Move(files[n])]
    ensures Moves(files[..n + 1])[..n] == Moves(files[..n])
  {
  }

  /** The reset code, running on a disk. */
  class ResetAgent {
    var disk: Disk

    constructor (d: Disk)
      ensures disk == d
    {
      disk := d;
    }

    method SyncDirectory(dir: Dir)
      modifies this
      ensures disk.separate == old(disk.separate)
      ensures disk == Synced(old(disk), dir)
    {
      disk := Synced(disk, dir);
    }

    /** writeFileDurable: the rename first, the sync of its directory after it. */
    method WriteFileDurable(file: File, content: string)
      modifies this
      ensures disk.separate == old(disk.separate)
      ensures Visible(disk, file) == Slot(Some(content), Visible(old(disk), file).archived) && |disk.slots.Of(file)| == 1
      ensures disk == Synced(Written(old(disk), file, Some(content)), DirOf(disk.separate, file))
    {
      var versions := disk.slots.Of(file);
      disk := disk.(slots := disk.slots.With(file, versions + [Last(versions).(live := Some(content))]));
      SyncDirectory(DirOf(disk.separate, file));
    }

    method Rename(stamp: nat, file: File) returns (found: bool)
      modifies this
      ensures disk.separate == old(disk.separate)
      ensures disk == Renamed(old(disk), stamp, file)
      ensures found == Visible(old(disk), file).live.Some?
    {
      var visible := Last(disk.slots.Of(file));
      found := visible.live.Some?;
      if found { disk := disk.(slots := disk.slots.With(file, disk.slots.Of(file) + [Moved(visible, stamp)])); }
    }

    method RenameAll(stamp: nat, files: seq<File>) returns (archived: seq<File>)
      modifies this
      ensures disk.separate == old(disk.separate)
      ensures disk == ExecAll(old(disk), stamp, Moves(files))
      ensures archived == Found(old(disk), stamp, files)
    {
      ghost var start := disk;
      archived := [];
      for i := 0 to |files|
        invariant disk.separate == start.separate
        invariant disk == ExecAll(start, stamp, Moves(files[..i]))
        invariant archived == Found(start, stamp, files[..i])
      {
        MovesSnoc(files, i);
        ExecSnoc(start, stamp, Moves(files[..i]), Move(files[i]));
        assert files[..i + 1][..i] == files[..i];
        var found := Rename(stamp, files[i]);
        if found { archived := archived + [files[i]]; }
      }
      assert files[..|files|] == files;
    }

    method SyncAll(ghost stamp: nat, dirs: seq<Dir>)
      modifies this
      ensures disk.separate == old(disk.separate)
      ensures disk == ExecAll(old(disk), stamp, Syncs(dirs))
    {
      ghost var start := disk;
      for i := 0 to |dirs|
        invariant disk.separate == start.separate
        invariant disk == ExecAll(start, stamp, Syncs(dirs[..i]))
      {
        assert Syncs(dirs[..i + 1]) == Syncs(dirs[..i]) + [Sync(dirs[i])];
        ExecSnoc(start, stamp, Syncs(dirs[..i]), Sync(dirs[i]));
        SyncDirectory(dirs[i]);
      }
      assert dirs[..|dirs|] == dirs;
    }

    /** archiveWithStamp: rename what is there, then sync EVERY directory the reset covers. */
    method ArchiveWithStamp(stamp: nat, files: seq<File>) returns (archived: seq<File>)
      modifies this
      ensures disk.separate == old(disk.separate)
      ensures disk == ExecAll(old(disk), stamp, Moves(files) + Syncs(DirsOf(disk.separate, files)))
      ensures archived == Found(old(disk), stamp, files)
    {
      ghost var start := disk;
      var dirs := DirsOf(disk.separate, files);
      archived := RenameAll(stamp, files);
      SyncAll(stamp, dirs);
      ExecAppend(start, stamp, Moves(files), Syncs(dirs));
    }

    /** Deletes the journal and makes the deletion durable. */
    method DropJournal(ghost stamp: nat)
      modifies this
      ensures disk.separate == old(disk.separate)
      ensures disk == ExecAll(old(disk), stamp, [Unlink, Sync(CredentialsDir)])
    {
      ghost var start := disk;
      ExecSnoc(start, stamp, [], Unlink);
      ExecSnoc(start, stamp, [Unlink], Sync(CredentialsDir));
      assert [] + [Unlink] == [Unlink] && [Unlink] + [Sync(CredentialsDir)] == [Unlink, Sync(CredentialsDir)];
      disk := disk.(journal := disk.journal + [None]);
      SyncDirectory(CredentialsDir);
    }

    method ArchiveAndDrop(j: Journal) returns (archived: seq<File>)
      modifies this
      ensures disk.separate == old(disk.separate)
      ensures disk == ExecAll(old(disk), j.stamp, Resumption(old(disk.separate), j))
      ensures archived == Found(old(disk), j.stamp, j.files)
    {
      ghost var start := disk;
      archived := ArchiveWithStamp(j.stamp, j.files);
      DropJournal(j.stamp);
      ExecAppend(start, j.stamp, Moves(j.files) + Syncs(DirsOf(start.separate, j.files)), [Unlink, Sync(CredentialsDir)]);
    }

    /** archiveFiles: journal durably, archive, drop the journal. */
    method ArchiveFiles(stamp: nat, files: seq<File>) returns (archived: seq<File>)
      modifies this
      ensures disk.separate == old(disk.separate)
      ensures disk == ExecAll(old(disk).(journal := old(disk.journal) + [Some(Journal(stamp, files))]), stamp,
                              Program(old(disk.separate), Journal(stamp, files)))
      ensures archived == Found(old(disk), stamp, files)
    {
      var j := Journal(stamp, files);
      ghost var before := disk;
      disk := disk.(journal := disk.journal + [Some(j)]);
      ghost var start := disk;
      SyncDirectory(CredentialsDir);
      FoundIsVisible(before, disk, stamp, files);
      ExecSnoc(start, stamp, [], Sync(CredentialsDir));
      archived := ArchiveAndDrop(j);
      ExecAppend(start, stamp, [] + [Sync(CredentialsDir)], Resumption(start.separate, j));
    }

    /** finishInterruptedReset: resume exactly the files the visible journal names. */
    method FinishInterruptedReset() returns (resumed: bool)
      modifies this
      ensures resumed == old(Last(disk.journal).Some?)
      ensures !resumed ==> disk == old(disk)
      ensures resumed ==>
                var j := old(Last(disk.journal).value);
                disk == ExecAll(old(disk), j.stamp, Resumption(old(disk.separate), j))
    {
      var found := Last(disk.journal);
      if found.None? { return false; }
      var archived := ArchiveAndDrop(found.value);
      return true;
    }
  }
}
