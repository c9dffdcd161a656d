// What each handler answers and what it leaves on disk, in the words of the
// interface: status codes, and conditions on what was sent and on the file.
module Answers {
  import opened Text
  import opened ConfText
  import opened Filtering
  import opened ConfEdits
  import opened ConfWriter
  import opened Requests
  import opened Reload
  import opened Protocol
  import opened Guarantees
  import opened Server
  import Upstreams

  // ---- raw saves -------------------------------------------------------------

  // The answers to a raw save when no system call fails.
  lemma RawAnswer(content: string, rev: string, before: Disk, after: Disk, status: int, stamp: string, cut: nat,
                  valid: string -> bool, digest: string -> string)
    requires Handled(PutRaw(content, rev), before, after, status, stamp, cut, valid, digest, NoFault)
    ensures rev != "" && Load(before.live).None? ==> status == 500 && after == before
    ensures status == 409 <==>
              rev != "" && Load(before.live).Some? && digest(Serialize(Load(before.live).value)) != rev
    ensures status == 409 ==> after == before
    ensures rev == "" || (Load(before.live).Some? && digest(Serialize(Load(before.live).value)) == rev) ==>
              exists text :: SavedAs(content, text)
                && (if !valid(text) then status == 422 && after == before
                    else after.live == Some(text) && status == if Load(Some(text)).Some? then 200 else 500)
  {
    if rev == "" || (Load(before.live).Some? && digest(Serialize(Load(before.live).value)) == rev) {
      TerminatedSaves(content);
      assert PlanFor(PutRaw(content, rev), before, digest) == Install(Terminated(content));
      RawCarriedOut(PutRaw(content, rev), Terminated(content), before, after, status, BackupName(stamp), cut, valid);
      assert SavedAs(content, Terminated(content));
    }
  }

  lemma RawCarriedOut(req: Request, text: string, before: Disk, after: Disk, status: int, name: string, cut: nat,
                      valid: string -> bool)
    requires req.PutRaw? && Follows(Install(text), req, before, after, status, name, cut, valid, NoFault)
    ensures if !valid(text) then status == 422 && after == before
            else after.live == Some(text) && status == if Load(Some(text)).Some? then 200 else 500
  {
    CompletedTrail(before, text, name, cut, NoFault);
  }

  // ---- edits -----------------------------------------------------------------

  predicate BadDirective(key: string, value: string, flag: bool) {
    !ValidKey(key) || '\n' in value || '\r' in value || (!flag && Trim(Go, value) == "")
  }

  // Why an edit is turned down: before the file is read ...
  predicate BadRequestFirst(e: Edit) {
    match e
    case AddLine(key, value, flag) => BadDirective(key, value, flag)
    case SetScalar(key, value) => !ValidKey(key) || '\n' in value || '\r' in value
    case SetFlag(key, _) => !ValidKey(key)
    case _ => false
  }

  // ... or on the file; None when it is accepted.
  function Objection(e: Edit, raws: seq<string>): Option<int> {
    match e
    case UpdateLine(idx, was, key, value, flag, raw) =>
      if key != "" && BadDirective(key, value, flag) then Some(400)
      else if idx < 0 || idx >= |raws| then Some(400)
      else if was != "" && raws[idx] != was then Some(409)
      else if key == "" && ('\n' in raw || '\r' in raw) then Some(400)
      else None
    case DeleteLine(idx, was) =>
      if idx < 0 || idx >= |raws| then Some(400)
      else if was != "" && raws[idx] != was then Some(409)
      else None
    case _ => None
  }

  lemma EditObjection(e: Edit, raws: seq<string>)
    requires !BadRequestFirst(e)
    ensures Apply(e, raws).Accepted? <==> Objection(e, raws).None?
    ensures Apply(e, raws).Refused? ==> Objection(e, raws) == Some(if Apply(e, raws).why.Conflict? then 409 else 400)
  {
  }

  lemma EditAdmitted(e: Edit)
    ensures Admissible(e) <==> !BadRequestFirst(e)
  {
  }

  // The answers to an edit when no system call fails.
  lemma EditAnswer(e: Edit, before: Disk, after: Disk, status: int, stamp: string, cut: nat,
                   valid: string -> bool, digest: string -> string)
    requires Handled(Change(e), before, after, status, stamp, cut, valid, digest, NoFault)
    ensures BadRequestFirst(e) ==> status == 400 && after == before
    ensures !BadRequestFirst(e) && Load(before.live).None? ==> status == 500 && after == before
    ensures !BadRequestFirst(e) && Load(before.live).Some? && Objection(e, Load(before.live).value).Some? ==>
              status == Objection(e, Load(before.live).value).value && after == before
    ensures !BadRequestFirst(e) && Load(before.live).Some? && Objection(e, Load(before.live).value).None? ==>
              && Apply(e, Load(before.live).value).Accepted?
              && EditWritten(Serialize(Apply(e, Load(before.live).value).raws), before, after, status, valid)
  {
    EditAdmitted(e);
    if !BadRequestFirst(e) && Load(before.live).Some? {
      var raws := Load(before.live).value;
      EditObjection(e, raws);
      if Apply(e, raws).Accepted? {
        CompletedTrail(before, Serialize(Apply(e, raws).raws), BackupName(stamp), cut, NoFault);
      }
    }
  }

  predicate EditWritten(text: string, before: Disk, after: Disk, status: int, valid: string -> bool) {
    if !valid(text) then status == 422 && after == before
    else after.live == Some(text) && status == if Load(Some(text)).Some? then 200 else 500
  }

  // ---- faults ------------------------------------------------------------------

  // A check that cannot be run is a rejection; every other fault before the
  // rename is an error. Neither changes the live file.
  lemma FaultAnswer(req: Request, before: Disk, after: Disk, status: int, stamp: string, cut: nat,
                    valid: string -> bool, digest: string -> string, fault: Fault)
    requires Handled(req, before, after, status, stamp, cut, valid, digest, fault)
    requires PlanFor(req, before, digest).Install? && valid(PlanFor(req, before, digest).text)
    ensures fault.TestFails? ==> status == (if req.Change? || req.PutRaw? then 422 else 500) && after == before
    ensures fault.CheckFails? || fault.MkdirFails? || fault.ReadFails? ==> status == 500 && after == before
    ensures fault.TmpFails? || fault.RenameFails? ==> status == 500 && after.live == before.live
    ensures fault.BackupFails? && before.live.Some? ==> status == 500 && after.live == before.live
    ensures fault.ReloadFails? ==>
              status == (if req.Change? || req.PutRaw? then 500 else 200)
              && after.live == Some(PlanFor(req, before, digest).text)
  {
    CompletedTrail(before, PlanFor(req, before, digest).text, BackupName(stamp), cut, fault);
  }

  // A file that cannot be opened stops every request that starts from it.
  lemma CannotOpen(req: Request, before: Disk, after: Disk, status: int, stamp: string, cut: nat,
                   valid: string -> bool, digest: string -> string)
    requires Handled(req, before, after, status, stamp, cut, valid, digest, OpenFails)
    ensures req.Change? ==> status == (if BadRequestFirst(req.edit) then 400 else 500) && after == before
    ensures req.Restore? || req.SwitchUpstreams? || (req.PutRaw? && req.rev != "") ==> status == 500 && after == before
  {
    if req.Change? {
      EditAdmitted(req.edit);
    }
  }

  // A raw save without a revision does not open it first, so it does not notice.
  lemma SavesUnopened(content: string, before: Disk, after: Disk, status: int, stamp: string, cut: nat,
                      valid: string -> bool, digest: string -> string)
    requires Handled(PutRaw(content, ""), before, after, status, stamp, cut, valid, digest, OpenFails)
    ensures Handled(PutRaw(content, ""), before, after, status, stamp, cut, valid, digest, NoFault)
  {
    SameWithoutOpening(before, Terminated(content), valid(Terminated(content)), BackupName(stamp), cut);
  }

  lemma SameWithoutOpening(d: Disk, text: string, valid: bool, name: string, cut: nat)
    ensures ResultOf(d, valid, OpenFails) == ResultOf(d, valid, NoFault)
    ensures DiskAfter(d, text, valid, name, cut, OpenFails) == DiskAfter(d, text, valid, name, cut, NoFault)
  {
  }

  // ---- what a success leaves behind --------------------------------------------

  // The file that was replaced is in the backup of the moment, no temporary
  // file remains, and no other backup was touched.
  lemma BackupTaken(req: Request, before: Disk, after: Disk, status: int, stamp: string, cut: nat,
                    valid: string -> bool, digest: string -> string, fault: Fault)
    requires Handled(req, before, after, status, stamp, cut, valid, digest, fault) && status == 200
    ensures after.tmp == None
    ensures after.backups ==
            if before.live.Some? then before.backups["dnsmasq.conf." + stamp + ".bak" := before.live.value]
            else before.backups
  {
    CompletedTrail(before, PlanFor(req, before, digest).text, BackupName(stamp), cut, fault);
  }

  // The first directive creates the file.
  lemma FirstDirective(key: string, value: string, before: Disk, after: Disk, status: int, stamp: string, cut: nat,
                       valid: string -> bool, digest: string -> string)
    requires Handled(Change(AddLine(key, value, false)), before, after, status, stamp, cut, valid, digest, NoFault)
    requires before.live.None? && !BadDirective(key, value, false) && valid(key + "=" + value + "\n")
    ensures after.live == Some(key + "=" + value + "\n") && after.backups == before.backups
  {
    var e := AddLine(key, value, false);
    EditAnswer(e, before, after, status, stamp, cut, valid, digest);
    AddedToNothing(key, value);
  }

  lemma AddedToNothing(key: string, value: string)
    ensures Serialize(Added([], key, value, false)) == key + "=" + value + "\n"
  {
    assert Added([], key, value, false) == [key + "=" + value];
  }

  // ---- restoring a backup --------------------------------------------------------

  // A backup is looked up by the last part of the name it is given, in the
  // backup directory alone, and only if that part ends in .bak.
  lemma BackupLookup(d: Disk, dir: string, name: string, slashes: string)
    requires '/' !in name && name != "" && AllSlashes(slashes)
    ensures FindBackup(d, name) == FindBackup(d, dir + "/" + name + slashes)
    ensures FindBackup(d, name) ==
            if |name| >= 4 && name[|name| - 4..] == ".bak" && name in d.backups then Some(d.backups[name]) else None
  {
    SlashFreeIsBase(name);
    BaseInDir(dir, name, slashes);
  }

  predicate AllSlashes(s: string) { forall i :: 0 <= i < |s| ==> s[i] == '/' }

  lemma BaseInDir(dir: string, name: string, slashes: string)
    requires '/' !in name && name != "" && AllSlashes(slashes)
    ensures BaseName(dir + "/" + name + slashes) == name
  {
    var path := dir + "/" + name;
    assert path[|path| - 1] == name[|name| - 1];
    SlashesTrimmed(path, slashes);
    AfterSlashOf(dir, name);
  }

  lemma {:induction false} SlashesTrimmed(path: string, slashes: string)
    requires path != "" && path[|path| - 1] != '/' && AllSlashes(slashes)
    ensures TrimSlashes(path + slashes) == path
    decreases |slashes|
  {
    if slashes == "" {
      assert path + slashes == path;
    } else {
      assert (path + slashes)[..|path + slashes| - 1] == path + slashes[..|slashes| - 1];
      SlashesTrimmed(path, slashes[..|slashes| - 1]);
    }
  }

  lemma {:induction false} AfterSlashOf(dir: string, name: string)
    requires '/' !in name
    ensures AfterLastSlash(dir + "/" + name) == name
    decreases |name|
  {
    var path := dir + "/" + name;
    if name == "" {
      assert path[|path| - 1] == '/';
    } else {
      assert path[..|path| - 1] == dir + "/" + name[..|name| - 1] && path[|path| - 1] == name[|name| - 1];
      AfterSlashOf(dir, name[..|name| - 1]);
    }
  }

  lemma RestoreAnswer(filename: string, before: Disk, after: Disk, status: int, stamp: string, cut: nat,
                      valid: string -> bool, digest: string -> string)
    requires Handled(Restore(filename), before, after, status, stamp, cut, valid, digest, NoFault)
    ensures status == 200 <==> FindBackup(before, filename).Some? && valid(FindBackup(before, filename).value)
    ensures if status == 200 then after.live == FindBackup(before, filename) else status == 500 && after == before
  {
    if FindBackup(before, filename).Some? {
      CompletedTrail(before, FindBackup(before, filename).value, BackupName(stamp), cut, NoFault);
    }
  }

  // ---- the upstream switch ---------------------------------------------------------

  // The physical lines of a file name these unscoped servers, and the other
  // lines are those of the file before.
  predicate SwitchedTo(text: string, raws: seq<string>, upstreams: seq<string>) {
    Upstreams.Names(Scan(text), upstreams) && Drop(Scan(text), Upstreams.Global()) == Drop(raws, Upstreams.Global())
  }

  lemma SwitchText(raws: seq<string>, encrypted: bool, plain: seq<string>)
    requires NoNewline(raws) && Upstreams.Unscoped(plain) && forall i :: 0 <= i < |plain| ==> OneLine(plain[i])
    ensures SwitchedTo(Switched(raws, encrypted, plain), raws, if encrypted then ["127.0.0.1#5053"] else plain)
  {
    var ups := Upstreams.Chosen(encrypted, plain);
    Upstreams.ToggleMeaning(raws, encrypted, plain);
    ForwarderOneLine();
    DroppedNoNewline(raws);
    AddedNoNewline(Drop(raws, Upstreams.Global()), ups);
    ScanSerialize(Upstreams.Rewritten(raws, ups));
  }

  lemma ForwarderOneLine()
    ensures OneLine(Upstreams.FORWARDER)
  {
  }

  // A switch answered with 200 left what was asked for on disk: with
  // encryption on the forwarder alone, with encryption off the plain
  // addresses, and in both cases every other line as it was.
  lemma SwitchAnswer(encrypted: bool, plain: seq<string>, before: Disk, after: Disk, status: int, stamp: string,
                     cut: nat, valid: string -> bool, digest: string -> string, fault: Fault)
    requires Handled(SwitchUpstreams(encrypted, plain), before, after, status, stamp, cut, valid, digest, fault)
    requires Upstreams.Unscoped(plain) && forall i :: 0 <= i < |plain| ==> OneLine(plain[i])
    ensures status in {200, 500} && (status == 500 ==> after.live == before.live)
    ensures status == 200 ==>
              && Load(before.live).Some? && after.live.Some?
              && SwitchedTo(after.live.value, Load(before.live).value, if encrypted then ["127.0.0.1#5053"] else plain)
  {
    if Load(before.live).Some? {
      SwitchPlan(encrypted, plain, before, after, status, stamp, cut, valid, digest, fault);
      LoadedFree(before.live);
      SwitchText(Load(before.live).value, encrypted, plain);
    }
  }

  lemma SwitchPlan(encrypted: bool, plain: seq<string>, before: Disk, after: Disk, status: int, stamp: string,
                   cut: nat, valid: string -> bool, digest: string -> string, fault: Fault)
    requires Handled(SwitchUpstreams(encrypted, plain), before, after, status, stamp, cut, valid, digest, fault)
    requires Load(before.live).Some?
    ensures status == 200 ==> after.live == Some(Switched(Load(before.live).value, encrypted, plain))
    ensures status != 200 ==> status == 500 && after.live == before.live
  {
    SwitchInstalls(encrypted, plain, before, digest);
    if !fault.OpenFails? {
      SwitchCarriedOut(SwitchUpstreams(encrypted, plain), Switched(Load(before.live).value, encrypted, plain),
                       before, after, status, BackupName(stamp), cut, valid, fault);
    }
  }

  lemma SwitchInstalls(encrypted: bool, plain: seq<string>, d: Disk, digest: string -> string)
    requires Load(d.live).Some?
    ensures PlanFor(SwitchUpstreams(encrypted, plain), d, digest) ==
            Install(Switched(Load(d.live).value, encrypted, plain))
  {
  }

  lemma SwitchCarriedOut(req: Request, text: string, before: Disk, after: Disk, status: int, name: string, cut: nat,
                         valid: string -> bool, fault: Fault)
    requires req.SwitchUpstreams? && Follows(Install(text), req, before, after, status, name, cut, valid, fault)
    ensures status == 200 ==> after.live == Some(text)
    ensures status != 200 ==> status == 500 && after.live == before.live
  {
    CompletedTrail(before, text, name, cut, fault);
  }

  lemma LoadedFree(file: Option<string>)
    requires Load(file).Some?
    ensures NoNewline(Load(file).value)
  {
    if file.Some? {
      LinesNoNewline(file.value);
    }
  }

  // In every run: a committed switch wrote what was asked for over the lines
  // of the file it replaced.
  lemma SwitchesHold(valid: string -> bool, digest: string -> string, disk: Disk, acts: seq<Action>, s: Sys,
                     k: nat, encrypted: bool, plain: seq<string>)
    requires Reached(valid, digest, disk, acts, s)
    requires k < |s.log| && s.log[k].job.req == SwitchUpstreams(encrypted, plain)
    requires Upstreams.Unscoped(plain) && forall i :: 0 <= i < |plain| ==> OneLine(plain[i])
    ensures Load(Replaces(disk.live, s.log, k)).Some?
    ensures SwitchedTo(s.log[k].job.text, Load(Replaces(disk.live, s.log, k)).value,
                       if encrypted then ["127.0.0.1#5053"] else plain)
  {
    Linearizable(valid, digest, disk, acts, s, k);
    LoadedFree(s.log[k].job.at.live);
    SwitchText(Load(s.log[k].job.at.live).value, encrypted, plain);
  }
}
