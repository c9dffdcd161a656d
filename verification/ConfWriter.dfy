// Persisting the configuration: validate, back up, write a temporary file,
// rename it into place. The disk is observed after every system call, so that
// a statement about all observed states is one about every point at which the
// process can die.
module ConfWriter {
  import opened Text

  datatype Disk = Disk(live: Option<string>, tmp: Option<string>, backups: map<string, string>)

  // ---- system calls ------------------------------------------------------

  function Cut(s: string, k: nat): string { if k < |s| then s[..k] else s }

  // A file write stopped after k code points.
  function BackupCut(d: Disk, name: string, k: nat): Disk
    requires d.live.Some?
  {
    d.(backups := d.backups[name := Cut(d.live.value, k)])
  }

  function BackupDone(d: Disk, name: string): Disk
    requires d.live.Some?
  {
    d.(backups := d.backups[name := d.live.value])
  }

  function TmpCut(d: Disk, text: string, k: nat): Disk { d.(tmp := Some(Cut(text, k))) }

  function TmpDone(d: Disk, text: string): Disk { d.(tmp := Some(text)) }

  // rename(2): whatever the temporary file holds becomes the live file.
  function Renamed(d: Disk): Disk { Disk(d.tmp, None, d.backups) }

  // ---- what a completed write leaves --------------------------------------

  function WithBackup(d: Disk, name: string): Disk {
    if d.live.Some? then BackupDone(d, name) else d
  }

  function Installed(d: Disk, text: string, name: string): Disk {
    Disk(Some(text), None, WithBackup(d, name).backups)
  }

  // A state in which the service may safely be found after a crash: the old
  // file, or the new one, and the new one only when it passed validation and
  // the old one had been copied to the backup in full.
  predicate SafePoint(before: Disk, text: string, name: string, valid: string -> bool, d: Disk) {
    || d.live == before.live
    || (d.live == Some(text) && valid(text)
        && (before.live.Some? ==> name in d.backups && d.backups[name] == before.live.value))
  }

  // Backups under other names are never touched.
  predicate OtherBackupsKept(before: Disk, name: string, d: Disk) {
    forall b :: b in before.backups && b != name ==> b in d.backups && d.backups[b] == before.backups[b]
  }

  // What fails: reading the file a request starts from, preparing the check's
  // scratch file, running the check's command, a step of the write, or reading
  // the result back.
  datatype Fault =
    | NoFault | OpenFails | CheckFails | TestFails | MkdirFails | ReadFails
    | BackupFails(at: nat) | TmpFails(at: nat) | RenameFails | ReloadFails

  // The disks that the system calls of one write leave, one after the other.
  function Trail(d: Disk, text: string, name: string, cut: nat, fault: Fault): seq<Disk> {
    if fault.CheckFails? || fault.TestFails? || fault.MkdirFails? || fault.ReadFails? then []
    else if fault.BackupFails? && d.live.Some? then [BackupCut(d, name, fault.at)]
    else BackupTrail(d, name, cut) + TmpTrail(WithBackup(d, name), text, cut, fault)
  }

  function BackupTrail(d: Disk, name: string, cut: nat): seq<Disk> {
    if d.live.Some? then [BackupCut(d, name, cut), BackupDone(d, name)] else []
  }

  function TmpTrail(d: Disk, text: string, cut: nat, fault: Fault): seq<Disk> {
    if fault.TmpFails? then [TmpCut(d, text, fault.at)]
    else if fault.RenameFails? then [TmpCut(d, text, cut), TmpDone(d, text)]
    else [TmpCut(d, text, cut), TmpDone(d, text), Renamed(TmpDone(d, text))]
  }

  // The write goes through to the rename.
  predicate Completes(d: Disk, fault: Fault) {
    fault.NoFault? || fault.OpenFails? || fault.ReloadFails? || (fault.BackupFails? && d.live.None?)
  }

  function LastDisk(d: Disk, trail: seq<Disk>): Disk { if trail == [] then d else trail[|trail| - 1] }

  lemma CompletedTrail(d: Disk, text: string, name: string, cut: nat, fault: Fault)
    ensures Completes(d, fault) ==> LastDisk(d, Trail(d, text, name, cut, fault)) == Installed(d, text, name)
    ensures !Completes(d, fault) ==> LastDisk(d, Trail(d, text, name, cut, fault)).live == d.live
  {
  }

  // What a write leaves in the end.
  function DiskAfter(d: Disk, text: string, valid: bool, name: string, cut: nat, fault: Fault): Disk {
    if valid then LastDisk(d, Trail(d, text, name, cut, fault)) else d
  }

  datatype Result = Ok | Rejected | Failed

  // A command that cannot be run counts as a rejection.
  function ResultOf(d: Disk, valid: bool, fault: Fault): Result {
    if fault.CheckFails? then Failed
    else if fault.TestFails? || !valid then Rejected
    else if Completes(d, fault) then Ok else Failed
  }

  // Every disk on the way is one the service may be found in after a crash.
  lemma TrailIsSafe(d: Disk, text: string, name: string, cut: nat, fault: Fault, valid: string -> bool)
    requires valid(text)
    ensures forall i :: 0 <= i < |Trail(d, text, name, cut, fault)| ==>
              SafePoint(d, text, name, valid, Trail(d, text, name, cut, fault)[i])
              && OtherBackupsKept(d, name, Trail(d, text, name, cut, fault)[i])
  {
  }

  function BackupName(stamp: string): string { "dnsmasq.conf." + stamp + ".bak" }

  class Writer {
    const valid: string -> bool  // dnsmasq --test, or always true without the binary
    var disk: Disk
    ghost var seen: seq<Disk>    // the disk after every system call so far

    constructor (disk: Disk, valid: string -> bool)
      ensures this.disk == disk && this.valid == valid && seen == []
    {
      this.disk := disk;
      this.valid := valid;
      seen := [];
    }

    method Step(d: Disk)
      modifies this
      ensures disk == d && seen == old(seen) + [d]
    {
      disk := d;
      seen := seen + [d];
    }

    // createBackup. A file write is observed at one intermediate point, whose
    // position `cut` is arbitrary.
    method CreateBackup(stamp: string, cut: nat, fault: Fault) returns (ok: bool)
      modifies this
      ensures old(seen) <= seen
      ensures forall i :: |old(seen)| <= i < |seen| ==>
                seen[i].live == old(disk.live) && seen[i].tmp == old(disk.tmp)
                && OtherBackupsKept(old(disk), BackupName(stamp), seen[i])
      ensures disk.live == old(disk.live) && disk.tmp == old(disk.tmp)
      ensures OtherBackupsKept(old(disk), BackupName(stamp), disk)
      ensures ok ==> disk == WithBackup(old(disk), BackupName(stamp))
      ensures ok <==> !fault.MkdirFails? && !fault.ReadFails? && !(fault.BackupFails? && old(disk).live.Some?)
      ensures ok ==> seen == old(seen) + BackupTrail(old(disk), BackupName(stamp), cut)
      ensures fault.MkdirFails? || fault.ReadFails? ==> disk == old(disk) && seen == old(seen)
      ensures fault.BackupFails? && old(disk).live.Some? ==>
                seen == old(seen) + [BackupCut(old(disk), BackupName(stamp), fault.at)]
                && disk == BackupCut(old(disk), BackupName(stamp), fault.at)
    {
      if fault.MkdirFails? || fault.ReadFails? {
        return false;
      }
      if disk.live.None? {
        return true;
      }
      var name := BackupName(stamp);
      var start := disk;
      Step(BackupCut(start, name, if fault.BackupFails? then fault.at else cut));
      if fault.BackupFails? {
        return false;
      }
      Step(BackupDone(start, name));
      return true;
    }

    method WriteRaw(text: string, stamp: string, cut: nat, fault: Fault) returns (result: Result)
      modifies this
      ensures old(seen) <= seen
      ensures forall i :: |old(seen)| <= i < |seen| ==>
                SafePoint(old(disk), text, BackupName(stamp), valid, seen[i])
                && OtherBackupsKept(old(disk), BackupName(stamp), seen[i])
      ensures OtherBackupsKept(old(disk), BackupName(stamp), disk)
      ensures result == ResultOf(old(disk), valid(text), fault)
      ensures result.Ok? ==> valid(text) && disk == Installed(old(disk), text, BackupName(stamp))
      ensures !result.Ok? ==> disk.live == old(disk.live)
      ensures result.Rejected? ==> disk == old(disk) && seen == old(seen)
      ensures valid(text) ==> seen == old(seen) + Trail(old(disk), text, BackupName(stamp), cut, fault)
      ensures disk == DiskAfter(old(disk), text, valid(text), BackupName(stamp), cut, fault)
    {
      if fault.CheckFails? {
        return Failed;
      }
      if fault.TestFails? || !valid(text) {
        return Rejected;
      }
      TrailIsSafe(disk, text, BackupName(stamp), cut, fault, valid);
      var done := Replace(text, stamp, cut, fault);
      return if done then Ok else Failed;
    }

    // What follows the check: the backup, the temporary file, the rename.
    method Replace(text: string, stamp: string, cut: nat, fault: Fault) returns (ok: bool)
      requires !fault.CheckFails? && !fault.TestFails?
      modifies this
      ensures seen == old(seen) + Trail(old(disk), text, BackupName(stamp), cut, fault)
      ensures disk == LastDisk(old(disk), Trail(old(disk), text, BackupName(stamp), cut, fault))
      ensures OtherBackupsKept(old(disk), BackupName(stamp), disk)
      ensures if ok then disk == Installed(old(disk), text, BackupName(stamp)) else disk.live == old(disk.live)
      ensures ok <==> Completes(old(disk), fault)
    {
      ok := CreateBackup(stamp, cut, fault);
      if ok {
        ok := InstallTmp(text, cut, fault);
      }
    }

    // The temporary file and its rename.
    method InstallTmp(text: string, cut: nat, fault: Fault) returns (ok: bool)
      modifies this
      ensures seen == old(seen) + TmpTrail(old(disk), text, cut, fault)
      ensures disk == LastDisk(old(disk), TmpTrail(old(disk), text, cut, fault))
      ensures ok <==> !fault.TmpFails? && !fault.RenameFails?
      ensures disk.backups == old(disk.backups)
      ensures if ok then disk == Renamed(TmpDone(old(disk), text)) else disk.live == old(disk.live)
    {
      var kept := disk;
      Step(TmpCut(kept, text, if fault.TmpFails? then fault.at else cut));
      if fault.TmpFails? {
        return false;
      }
      Step(TmpDone(kept, text));
      if fault.RenameFails? {
        return false;
      }
      Step(Renamed(disk));
      return true;
    }

    // Whatever happens on the way, each observed disk is as safe as in any
    // other write; a late failure may leave a partial backup or temporary file.
    method RestoreBackup(filename: string, stamp: string, cut: nat, fault: Fault) returns (result: Result)
      modifies this
      ensures old(seen) <= seen
      ensures FindBackup(old(disk), filename).None? || fault.OpenFails? ==>
                result.Failed? && disk == old(disk) && seen == old(seen)
      ensures FindBackup(old(disk), filename).Some? ==>
                forall i :: |old(seen)| <= i < |seen| ==>
                  SafePoint(old(disk), FindBackup(old(disk), filename).value, BackupName(stamp), valid, seen[i])
                  && OtherBackupsKept(old(disk), BackupName(stamp), seen[i])
      ensures OtherBackupsKept(old(disk), BackupName(stamp), disk)
      ensures result.Ok? ==>
                var text := FindBackup(old(disk), filename);
                text.Some? && valid(text.value) && disk == Installed(old(disk), text.value, BackupName(stamp))
      ensures !result.Ok? ==> disk.live == old(disk.live)
      ensures result.Rejected? ==> disk == old(disk) && seen == old(seen)
      ensures FindBackup(old(disk), filename).Some? && !fault.OpenFails? ==>
                var text := FindBackup(old(disk), filename).value;
                result == ResultOf(old(disk), valid(text), fault)
                && disk == DiskAfter(old(disk), text, valid(text), BackupName(stamp), cut, fault)
    {
      if fault.OpenFails? {
        return Failed;
      }
      match FindBackup(disk, filename)
      case None => result := Failed;
      case Some(text) => result := WriteRaw(text, stamp, cut, fault);
    }
  }

  // ---- backup names ------------------------------------------------------

  // filepath.Base
  function TrimSlashes(s: string): (r: string)
    ensures |r| <= |s| && (r != "" ==> r[|r| - 1] != '/')
  {
    if s != "" && s[|s| - 1] == '/' then TrimSlashes(s[..|s| - 1]) else s
  }

  function AfterLastSlash(s: string): (r: string)
    ensures '/' !in r
  {
    if s == "" || s[|s| - 1] == '/' then "" else AfterLastSlash(s[..|s| - 1]) + [s[|s| - 1]]
  }

  function BaseName(path: string): string {
    if path == "" then "."
    else if TrimSlashes(path) == "" then "/"
    else AfterLastSlash(TrimSlashes(path))
  }

  // The content of a backup, looked up inside the backup directory only.
  function FindBackup(d: Disk, filename: string): Option<string> {
    var name := BaseName(filename);
    if HasSuffix(name, ".bak") && name in d.backups then Some(d.backups[name]) else None
  }

  lemma {:induction false} SlashFreeIsBase(s: string)
    requires '/' !in s && s != ""
    ensures BaseName(s) == s
  {
    SlashFreeTail(s);
  }

  lemma {:induction false} SlashFreeTail(s: string)
    requires '/' !in s
    ensures AfterLastSlash(s) == s
  {
    if s != "" {
      SlashFreeTail(s[..|s| - 1]);
    }
  }

  lemma FindBackupNamed(d: Disk, stamp: string)
    requires '/' !in stamp
    ensures FindBackup(d, BackupName(stamp)) ==
            if BackupName(stamp) in d.backups then Some(d.backups[BackupName(stamp)]) else None
  {
    var name := BackupName(stamp);
    assert '/' !in name;
    SlashFreeIsBase(name);
    assert name[|name| - 4..] == ".bak";
  }

  // Restoring a backup and then the backup that this took gives back the
  // file as it was, even if time stamps repeat.
  lemma RestoreUndone(d: Disk, filename: string, t1: string, t2: string)
    requires d.live.Some? && FindBackup(d, filename).Some? && '/' !in t1
    ensures var d1 := Installed(d, FindBackup(d, filename).value, BackupName(t1));
            && FindBackup(d1, BackupName(t1)) == d.live
            && Installed(d1, FindBackup(d1, BackupName(t1)).value, BackupName(t2)).live == d.live
  {
    FindBackupNamed(Installed(d, FindBackup(d, filename).value, BackupName(t1)), t1);
  }

  // The same over two calls: an operator who restores a backup and then the
  // one this took has the earlier file back, whatever else the directory
  // holds; and if that file passes the check, only a fault can prevent it.
  method RestoreAndUndo(w: Writer, filename: string, t1: string, t2: string, cut1: nat, cut2: nat,
                        fault1: Fault, fault2: Fault) returns (first: Result, second: Result)
    requires w.disk.live.Some? && '/' !in t1
    modifies w
    ensures first.Ok? && second.Ok? ==> w.disk.live == old(w.disk.live)
    ensures first.Ok? && !second.Ok? ==> FindBackup(old(w.disk), filename) == w.disk.live
    ensures !first.Ok? ==> second == Failed && w.disk.live == old(w.disk.live)
    ensures first.Ok? && fault2.NoFault? ==> (second.Ok? <==> w.valid(old(w.disk.live).value))
  {
    ghost var before := w.disk;
    first := w.RestoreBackup(filename, t1, cut1, fault1);
    if !first.Ok? {
      return first, Failed;
    }
    RestoreUndone(before, filename, t1, t2);
    second := w.RestoreBackup(BackupName(t1), t2, cut2, fault2);
  }
}
