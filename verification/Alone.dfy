// One request on its own: whatever a handler does, fault by fault, is what a
// single process of the protocol does, system call by system call and down to
// the answer. So what is proved of all runs speaks about the handlers.
module Alone {
  import opened Text
  import opened ConfText
  import opened ConfWriter
  import opened Requests
  import opened Protocol
  import opened Conditions
  import opened Guarantees
  import opened Server

  // The system calls that write to the disk.
  predicate WritesDisk(s: Sys, a: Action) {
    (a.StartBackup? && s.disk.live.Some?) || a.FinishBackup? || a.StartTmp? || a.FinishTmp? || a.Rename?
  }

  // The disk after each of them, in order.
  function Watched(env: Env, d: Disk, acts: seq<Action>): seq<Disk>
    requires After(env, Start(d), acts).Some?
    decreases |acts|
  {
    if acts == [] then []
    else
      var before, a := acts[..|acts| - 1], acts[|acts| - 1];
      var m := After(env, Start(d), before).value;
      Watched(env, d, before) + if WritesDisk(m, a) then [Do(env, m, a).disk] else []
  }

  predicate ByRequest(a: Action) {
    !a.Read? && !a.Snapshot? && !a.Discard? && !a.Crash? && a.id == 0
  }

  // A run of this one request that leaves these disks on its way.
  predicate Shows(env: Env, d: Disk, acts: seq<Action>, s: Sys, disks: seq<Disk>) {
    && (forall i :: 0 <= i < |acts| ==> ByRequest(acts[i]))
    && After(env, Start(d), acts) == Some(s) && Watched(env, d, acts) == disks
  }

  predicate At(s: Sys, ph: Phase, disk: Disk, log: seq<Commit>) {
    s.owner == Some(0) && 0 in s.procs && s.procs[0] == ph && s.disk == disk && s.log == log
  }

  lemma Extend(env: Env, d: Disk, acts: seq<Action>, s: Sys, disks: seq<Disk>, a: Action)
    requires Shows(env, d, acts, s, disks) && Enabled(s, a) && ByRequest(a)
    ensures Shows(env, d, acts + [a], Do(env, s, a), disks + if WritesDisk(s, a) then [Do(env, s, a).disk] else [])
  {
    assert (acts + [a])[..|acts + [a]| - 1] == acts;
  }

  lemma ToWaiting(env: Env, d: Disk, req: Request) returns (acts: seq<Action>, s: Sys)
    requires env.admits(req)
    ensures Shows(env, d, acts, s, [])
    ensures s.owner == None && 0 in s.procs && s.procs[0] == Waiting(req) && s.disk == d && s.log == []
  {
    Extend(env, d, [], Start(d), [], Arrive(0, req));
    acts, s := [] + [Arrive(0, req)], Do(env, Start(d), Arrive(0, req));
  }

  lemma ToHolding(env: Env, d: Disk, req: Request) returns (acts: seq<Action>, s: Sys)
    requires env.admits(req)
    ensures Shows(env, d, acts, s, []) && At(s, Holding(req), d, [])
  {
    acts, s := ToWaiting(env, d, req);
    Extend(env, d, acts, s, [], Acquire(0));
    acts, s := acts + [Acquire(0)], Do(env, s, Acquire(0));
  }

  lemma ToPlanned(env: Env, d: Disk, req: Request, text: string) returns (acts: seq<Action>, s: Sys)
    requires env.admits(req) && env.plan(req, d) == Install(text)
    ensures Shows(env, d, acts, s, []) && At(s, Planned(Job(req, d, text)), d, [])
  {
    acts, s := ToHolding(env, d, req);
    Extend(env, d, acts, s, [], MakePlan(0));
    acts, s := acts + [MakePlan(0)], Do(env, s, MakePlan(0));
  }

  lemma ToChecked(env: Env, d: Disk, req: Request, text: string) returns (acts: seq<Action>, s: Sys)
    requires env.admits(req) && env.plan(req, d) == Install(text) && env.valid(text)
    ensures Shows(env, d, acts, s, []) && At(s, Checked(Job(req, d, text)), d, [])
  {
    acts, s := ToPlanned(env, d, req, text);
    Extend(env, d, acts, s, [], Check(0));
    acts, s := acts + [Check(0)], Do(env, s, Check(0));
  }

  lemma ToCopying(env: Env, d: Disk, req: Request, text: string, name: string, cut: nat)
    returns (acts: seq<Action>, s: Sys)
    requires env.admits(req) && env.plan(req, d) == Install(text) && env.valid(text) && d.live.Some?
    ensures Shows(env, d, acts, s, [BackupCut(d, name, cut)])
    ensures At(s, Copying(Job(req, d, text), name), BackupCut(d, name, cut), [])
  {
    acts, s := ToChecked(env, d, req, text);
    Extend(env, d, acts, s, [], StartBackup(0, name, cut));
    acts, s := acts + [StartBackup(0, name, cut)], Do(env, s, StartBackup(0, name, cut));
  }

  lemma ToBackedUp(env: Env, d: Disk, req: Request, text: string, name: string, cut: nat)
    returns (acts: seq<Action>, s: Sys)
    requires env.admits(req) && env.plan(req, d) == Install(text) && env.valid(text)
    ensures Shows(env, d, acts, s, BackupTrail(d, name, cut))
    ensures At(s, BackedUp(Job(req, d, text), name), WithBackup(d, name), [])
  {
    if d.live.Some? {
      acts, s := ToCopying(env, d, req, text, name, cut);
      Extend(env, d, acts, s, [BackupCut(d, name, cut)], FinishBackup(0));
      acts, s := acts + [FinishBackup(0)], Do(env, s, FinishBackup(0));
      CopyCompleted(d, name, cut);
    } else {
      acts, s := ToChecked(env, d, req, text);
      Extend(env, d, acts, s, [], StartBackup(0, name, cut));
      acts, s := acts + [StartBackup(0, name, cut)], Do(env, s, StartBackup(0, name, cut));
      assert [] + [] == BackupTrail(d, name, cut);
    }
  }

  lemma CopyCompleted(d: Disk, name: string, cut: nat)
    requires d.live.Some?
    ensures name in BackupCut(d, name, cut).backups
    ensures BackupDone(BackupCut(d, name, cut), name) == WithBackup(d, name)
    ensures [BackupCut(d, name, cut)] + [WithBackup(d, name)] == BackupTrail(d, name, cut)
  {
  }

  lemma ToWriting(env: Env, d: Disk, req: Request, text: string, name: string, cut: nat, tmpCut: nat)
    returns (acts: seq<Action>, s: Sys)
    requires env.admits(req) && env.plan(req, d) == Install(text) && env.valid(text)
    ensures Shows(env, d, acts, s, BackupTrail(d, name, cut) + [TmpCut(WithBackup(d, name), text, tmpCut)])
    ensures At(s, Writing(Job(req, d, text), name), TmpCut(WithBackup(d, name), text, tmpCut), [])
  {
    acts, s := ToBackedUp(env, d, req, text, name, cut);
    Extend(env, d, acts, s, BackupTrail(d, name, cut), StartTmp(0, tmpCut));
    acts, s := acts + [StartTmp(0, tmpCut)], Do(env, s, StartTmp(0, tmpCut));
  }

  lemma ToStaged(env: Env, d: Disk, req: Request, text: string, name: string, cut: nat)
    returns (acts: seq<Action>, s: Sys)
    requires env.admits(req) && env.plan(req, d) == Install(text) && env.valid(text)
    ensures Shows(env, d, acts, s, BackupTrail(d, name, cut) + TmpTrail(WithBackup(d, name), text, cut, RenameFails))
    ensures At(s, Staged(Job(req, d, text), name), TmpDone(WithBackup(d, name), text), [])
  {
    acts, s := ToWriting(env, d, req, text, name, cut, cut);
    var disks := BackupTrail(d, name, cut) + [TmpCut(WithBackup(d, name), text, cut)];
    Extend(env, d, acts, s, disks, FinishTmp(0));
    acts, s := acts + [FinishTmp(0)], Do(env, s, FinishTmp(0));
    assert disks + [s.disk] == BackupTrail(d, name, cut) + TmpTrail(WithBackup(d, name), text, cut, RenameFails);
  }

  lemma ToSwapped(env: Env, d: Disk, req: Request, text: string, name: string, cut: nat)
    returns (acts: seq<Action>, s: Sys)
    requires env.admits(req) && env.plan(req, d) == Install(text) && env.valid(text)
    ensures Shows(env, d, acts, s, BackupTrail(d, name, cut) + TmpTrail(WithBackup(d, name), text, cut, NoFault))
    ensures At(s, Swapped(Job(req, d, text)), Installed(d, text, name), [Commit(0, Job(req, d, text), name)])
  {
    acts, s := ToStaged(env, d, req, text, name, cut);
    var disks := BackupTrail(d, name, cut) + TmpTrail(WithBackup(d, name), text, cut, RenameFails);
    Extend(env, d, acts, s, disks, Rename(0));
    acts, s := acts + [Rename(0)], Do(env, s, Rename(0));
    assert disks + [s.disk] == BackupTrail(d, name, cut) + TmpTrail(WithBackup(d, name), text, cut, NoFault);
    assert [] + [Commit(0, Job(req, d, text), name)] == [Commit(0, Job(req, d, text), name)];
  }

  // How far the process got when the write stops.
  lemma UpToFault(env: Env, d: Disk, req: Request, text: string, name: string, cut: nat, fault: Fault)
    returns (acts: seq<Action>, s: Sys)
    requires env.admits(req) && env.plan(req, d) == Install(text) && env.valid(text)
    requires ResultOf(d, true, fault).Failed?
    ensures Shows(env, d, acts, s, Trail(d, text, name, cut, fault))
    ensures 0 in s.procs && Critical(s.procs[0]) && !s.procs[0].Swapped? && s.log == []
    ensures RequestOf(s.procs[0]) == req
  {
    if fault.CheckFails? {
      acts, s := ToPlanned(env, d, req, text);
    } else if fault.MkdirFails? || fault.ReadFails? {
      acts, s := ToChecked(env, d, req, text);
    } else if fault.BackupFails? {
      acts, s := ToCopying(env, d, req, text, name, fault.at);
    } else if fault.TmpFails? {
      acts, s := ToWriting(env, d, req, text, name, cut, fault.at);
    } else {
      acts, s := ToStaged(env, d, req, text, name, cut);
    }
  }

  // How the process ends when its plan is to write this text.
  function EndOf(env: Env, req: Request, text: string, d: Disk, fault: Fault): Phase {
    match ResultOf(d, env.valid(text), fault)
    case Failed => Done(req, 500, true)
    case Rejected => Done(req, env.rejected(req), fault.TestFails?)
    case Ok =>
      if fault.ReloadFails? && Reloads(req) then Done(req, 500, true)
      else Done(req, env.answered(req, Some(text)), false)
  }

  function Seen(env: Env, d: Disk, text: string, name: string, cut: nat, fault: Fault): seq<Disk> {
    if env.valid(text) then Trail(d, text, name, cut, fault) else []
  }

  lemma RejectedAlone(env: Env, d: Disk, req: Request, text: string, name: string, cut: nat, fault: Fault)
    returns (acts: seq<Action>, s: Sys)
    requires env.admits(req) && env.plan(req, d) == Install(text)
    requires !env.valid(text) || fault.TestFails?
    ensures Shows(env, d, acts, s, [])
    ensures 0 in s.procs && s.procs[0] == EndOf(env, req, text, d, fault) && s.log == []
  {
    acts, s := ToPlanned(env, d, req, text);
    var a := if fault.CheckFails? then Fail(0) else if fault.TestFails? then FailTest(0) else Check(0);
    Extend(env, d, acts, s, [], a);
    acts, s := acts + [a], Do(env, s, a);
  }

  // Every call of WriteRaw, with whatever fault, leaves the disks of a run of
  // one process.
  lemma WriterIsOneProcess(env: Env, d: Disk, req: Request, text: string, name: string, cut: nat, fault: Fault)
    returns (acts: seq<Action>, s: Sys)
    requires env.admits(req) && env.plan(req, d) == Install(text)
    ensures Shows(env, d, acts, s, Seen(env, d, text, name, cut, fault))
    ensures 0 in s.procs && s.procs[0] == EndOf(env, req, text, d, fault)
    ensures s.log == if ResultOf(d, env.valid(text), fault).Ok? then [Commit(0, Job(req, d, text), name)] else []
  {
    if !env.valid(text) || fault.TestFails? {
      acts, s := RejectedAlone(env, d, req, text, name, cut, fault);
    } else {
      acts, s := WrittenAlone(env, d, req, text, name, cut, fault);
    }
  }

  lemma WrittenAlone(env: Env, d: Disk, req: Request, text: string, name: string, cut: nat, fault: Fault)
    returns (acts: seq<Action>, s: Sys)
    requires env.admits(req) && env.plan(req, d) == Install(text) && env.valid(text) && !fault.TestFails?
    ensures Shows(env, d, acts, s, Trail(d, text, name, cut, fault))
    ensures 0 in s.procs && s.procs[0] == EndOf(env, req, text, d, fault)
    ensures s.log == if ResultOf(d, true, fault).Ok? then [Commit(0, Job(req, d, text), name)] else []
  {
    if ResultOf(d, true, fault).Ok? {
      acts, s := CompletedAlone(env, d, req, text, name, cut, fault);
    } else {
      acts, s := FailedAlone(env, d, req, text, name, cut, fault);
    }
  }

  lemma CompletedAlone(env: Env, d: Disk, req: Request, text: string, name: string, cut: nat, fault: Fault)
    returns (acts: seq<Action>, s: Sys)
    requires env.admits(req) && env.plan(req, d) == Install(text) && env.valid(text)
    requires ResultOf(d, true, fault).Ok?
    ensures Shows(env, d, acts, s, Trail(d, text, name, cut, fault))
    ensures 0 in s.procs && s.procs[0] == EndOf(env, req, text, d, fault)
    ensures s.log == [Commit(0, Job(req, d, text), name)]
  {
    acts, s := ToSwapped(env, d, req, text, name, cut);
    SameTrail(d, text, name, cut, fault);
    var a := if fault.ReloadFails? && Reloads(req) then FailReload(0) else Reply(0);
    Extend(env, d, acts, s, Trail(d, text, name, cut, fault), a);
    acts, s := acts + [a], Do(env, s, a);
    assert Trail(d, text, name, cut, fault) + [] == Trail(d, text, name, cut, fault);
  }

  lemma SameTrail(d: Disk, text: string, name: string, cut: nat, fault: Fault)
    requires ResultOf(d, true, fault).Ok?
    ensures Trail(d, text, name, cut, fault) ==
            BackupTrail(d, name, cut) + TmpTrail(WithBackup(d, name), text, cut, NoFault)
  {
  }

  lemma FailedAlone(env: Env, d: Disk, req: Request, text: string, name: string, cut: nat, fault: Fault)
    returns (acts: seq<Action>, s: Sys)
    requires env.admits(req) && env.plan(req, d) == Install(text) && env.valid(text)
    requires ResultOf(d, true, fault).Failed?
    ensures Shows(env, d, acts, s, Trail(d, text, name, cut, fault))
    ensures 0 in s.procs && s.procs[0] == Done(req, 500, true) && s.log == []
  {
    acts, s := UpToFault(env, d, req, text, name, cut, fault);
    Extend(env, d, acts, s, Trail(d, text, name, cut, fault), Fail(0));
    acts, s := acts + [Fail(0)], Do(env, s, Fail(0));
    assert Trail(d, text, name, cut, fault) + [] == Trail(d, text, name, cut, fault);
  }

  // The disk at the end is the last one that was left on the way.
  lemma {:induction false} EndsWithLast(env: Env, d: Disk, acts: seq<Action>, s: Sys, disks: seq<Disk>)
    requires Shows(env, d, acts, s, disks)
    ensures s.disk == LastDisk(d, disks)
    decreases |acts|
  {
    if acts != [] {
      var before := acts[..|acts| - 1];
      EndsWithLast(env, d, before, After(env, Start(d), before).value, Watched(env, d, before));
    }
  }

  // ---- the handlers -------------------------------------------------------------

  // A run of this request alone ends with this answer and this disk.
  ghost predicate EndsAs(env: Env, d: Disk, req: Request, acts: seq<Action>, s: Sys, status: int, after: Disk) {
    && (forall i :: 0 <= i < |acts| ==> ByRequest(acts[i]))
    && After(env, Start(d), acts) == Some(s) && s.disk == after
    && 0 in s.procs && s.procs[0].Done? && s.procs[0].req == req && s.procs[0].status == status
  }

  lemma TurnedDown(env: Env, d: Disk, req: Request) returns (acts: seq<Action>, s: Sys)
    requires !env.admits(req)
    ensures EndsAs(env, d, req, acts, s, 400, d)
  {
    Extend(env, d, [], Start(d), [], Arrive(0, req));
    acts, s := [] + [Arrive(0, req)], Do(env, Start(d), Arrive(0, req));
  }

  lemma CannotRead(env: Env, d: Disk, req: Request) returns (acts: seq<Action>, s: Sys)
    requires env.admits(req)
    ensures EndsAs(env, d, req, acts, s, 500, d)
  {
    acts, s := ToHolding(env, d, req);
    Extend(env, d, acts, s, [], Fail(0));
    acts, s := acts + [Fail(0)], Do(env, s, Fail(0));
  }

  lemma RefusedAlone(env: Env, d: Disk, req: Request, status: int) returns (acts: seq<Action>, s: Sys)
    requires env.admits(req) && env.plan(req, d) == Refuse(status)
    ensures EndsAs(env, d, req, acts, s, status, d)
  {
    acts, s := ToHolding(env, d, req);
    Extend(env, d, acts, s, [], MakePlan(0));
    acts, s := acts + [MakePlan(0)], Do(env, s, MakePlan(0));
  }

  lemma WriteEnds(env: Env, d: Disk, req: Request, text: string, name: string, cut: nat, fault: Fault)
    returns (acts: seq<Action>, s: Sys)
    requires env.admits(req) && env.plan(req, d) == Install(text)
    ensures EndsAs(env, d, req, acts, s, EndOf(env, req, text, d, fault).status,
                   DiskAfter(d, text, env.valid(text), name, cut, fault))
  {
    acts, s := WriterIsOneProcess(env, d, req, text, name, cut, fault);
    EndsWithLast(env, d, acts, s, Seen(env, d, text, name, cut, fault));
  }

  lemma PlanFollowed(env: Env, plan: Plan, req: Request, before: Disk, after: Disk, status: int, name: string,
                     cut: nat, fault: Fault) returns (acts: seq<Action>, s: Sys)
    requires env.admits(req) && env.plan(req, before) == plan
    requires env.rejected == RejectStatus && env.answered == FinalStatus
    requires Follows(plan, req, before, after, status, name, cut, env.valid, fault)
    ensures EndsAs(env, before, req, acts, s, status, after)
  {
    match plan
    case Refuse(_) => acts, s := RefusedAlone(env, before, req, status);
    case Install(text) => acts, s := WriteEnds(env, before, req, text, name, cut, fault);
  }

  lemma NotAdmitted(req: Request, d: Disk, digest: string -> string)
    requires req.Change? && !Admissible(req.edit)
    ensures PlanFor(req, d, digest) == Refuse(400) && !StartsFromFile(req)
  {
  }

  // Every call of a handler is a run of one process: same disk, same answer.
  lemma HandlerIsOneProcess(valid: string -> bool, digest: string -> string, req: Request, before: Disk, after: Disk,
                            status: int, stamp: string, cut: nat, fault: Fault)
    returns (acts: seq<Action>, s: Sys)
    requires Handled(req, before, after, status, stamp, cut, valid, digest, fault)
    ensures EndsAs(ConsoleEnv(valid, digest), before, req, acts, s, status, after)
  {
    var env := ConsoleEnv(valid, digest);
    if req.Change? && !Admissible(req.edit) {
      NotAdmitted(req, before, digest);
      acts, s := TurnedDown(env, before, req);
    } else if fault.OpenFails? && StartsFromFile(req) {
      acts, s := CannotRead(env, before, req);
    } else {
      acts, s := PlanFollowed(env, PlanFor(req, before, digest), req, before, after, status, BackupName(stamp),
                              cut, fault);
    }
  }

  // ---- what the revision buys, over whole runs ------------------------------

  ghost predicate NeverOverwritesUnseen(valid: string -> bool, digest: string -> string,
                                        content: string, rev: string, seen: Option<string>)
  {
    forall disk, acts, s, k ::
      Reached(valid, digest, disk, acts, s) && 0 <= k < |s.log| && s.log[k].job.req == PutRaw(content, rev)
      ==> Load(Replaces(disk.live, s.log, k)) == Load(seen)
  }

  // A raw save never replaces lines that its author has not seen, in any run,
  // exactly when it carries the revision it was given.
  lemma LostUpdateExactly(valid: string -> bool, digest: string -> string,
                          content: string, rev: string, seen: Option<string>)
    requires Injective(digest) && Load(seen).Some? && valid(Terminated(content))
    requires rev == "" || rev == Rev(digest, Load(seen).value)
    ensures NeverOverwritesUnseen(valid, digest, content, rev, seen) <==> rev != ""
  {
    if rev == "" {
      var d := OtherFile(seen);
      var acts, s := WriterIsOneProcess(ConsoleEnv(valid, digest), d, PutRaw(content, rev), Terminated(content),
                                        "dnsmasq.conf.bak", 0, NoFault);
      assert Reached(valid, digest, d, acts, s);
      assert s.log[0].job.req == PutRaw(content, rev);
    } else {
      forall disk, acts, s, k |
        Reached(valid, digest, disk, acts, s) && 0 <= k < |s.log| && s.log[k].job.req == PutRaw(content, rev)
        ensures Load(Replaces(disk.live, s.log, k)) == Load(seen)
      {
        NoLostUpdate(valid, digest, disk, acts, s, k, content, rev, seen);
      }
    }
  }

  // ---- what the text of a line buys, over whole runs -------------------------

  ghost predicate NeverHitsUnseen(valid: string -> bool, digest: string -> string, e: Edit, seen: string)
    requires e.UpdateLine? || e.DeleteLine?
  {
    forall disk, acts, s, k ::
      Reached(valid, digest, disk, acts, s) && 0 <= k < |s.log| && s.log[k].job.req == Change(e)
      ==> HasLine(Replaces(disk.live, s.log, k), e.idx, seen)
  }

  // A line edit never hits another line than the one its author saw, in any
  // run, if it is guarded; and only then, where validation accepts everything.
  lemma LineGuardExactly(valid: string -> bool, digest: string -> string, e: Edit, seen: string)
    requires e.UpdateLine? || e.DeleteLine?
    ensures Guarded(e, seen) ==> NeverHitsUnseen(valid, digest, e, seen)
    ensures (forall text :: valid(text)) ==> (NeverHitsUnseen(valid, digest, e, seen) <==> Guarded(e, seen))
  {
    LineGuardExact(digest, e, seen);
    if Guarded(e, seen) {
      forall disk, acts, s, k |
        Reached(valid, digest, disk, acts, s) && 0 <= k < |s.log| && s.log[k].job.req == Change(e)
        ensures HasLine(Replaces(disk.live, s.log, k), e.idx, seen)
      {
        Linearizable(valid, digest, disk, acts, s, k);
        assert PlanFor(Change(e), s.log[k].job.at, digest).Install?;
      }
    } else if forall text :: valid(text) {
      var d := UnguardedFile(e, seen);
      var acts, s := CommittedAlone(valid, digest, d, e);
      assert s.log[0].job.req == Change(e) && !HasLine(Replaces(d.live, s.log, 0), e.idx, seen);
    }
  }

  lemma CommittedAlone(valid: string -> bool, digest: string -> string, d: Disk, e: Edit)
    returns (acts: seq<Action>, s: Sys)
    requires (forall text :: valid(text)) && Admissible(e)
    requires Load(d.live).Some? && Apply(e, Load(d.live).value).Accepted?
    ensures Reached(valid, digest, d, acts, s) && |s.log| == 1 && s.log[0].job.req == Change(e)
  {
    var text := PlanFor(Change(e), d, digest).text;
    acts, s := WriterIsOneProcess(ConsoleEnv(valid, digest), d, Change(e), text, "dnsmasq.conf.bak", 0, NoFault);
  }

  // ---- an answer that says error although the file was replaced ------------

  // With no fault at all, an over-long line locks every reader out: the edit
  // is committed, answered with 500, and the next save with a revision gets
  // 500 too.
  lemma CommittedYetUnreadable(valid: string -> bool, digest: string -> string, d: Disk)
    returns (e: Edit, acts: seq<Action>, s: Sys)
    requires d.live == Some("x\n") && forall text :: valid(text)
    ensures Reached(valid, digest, d, acts, s) && |s.log| == 1 && s.log[0].job.req == Change(e)
    ensures 0 in s.procs && s.procs[0] == Done(Change(e), 500, false)
    ensures s.disk.live == Some(s.log[0].job.text) && Load(s.disk.live).None?
    ensures forall content, rev :: rev != "" ==> PlanFor(PutRaw(content, rev), s.disk, digest) == Refuse(500)
  {
    e := LongLineLocksOut(d, digest);
    var text := PlanFor(Change(e), d, digest).text;
    acts, s := WriterIsOneProcess(ConsoleEnv(valid, digest), d, Change(e), text, "dnsmasq.conf.bak", 0, NoFault);
    Linearizable(valid, digest, d, acts, s, 0);
  }
}
