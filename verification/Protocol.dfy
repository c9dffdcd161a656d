// Many requests at once. Every request is a process that takes the
// configuration lock, plans its write against the file it finds, and then
// goes through the write pipeline one system call at a time; readers, backup
// deletions and crashes come in between at any point.
module Protocol {
  import opened Text
  import opened ConfWriter
  import opened Requests

  // What a process decided under the lock, and the disk it decided it on.
  datatype Job = Job(req: Request, at: Disk, text: string)

  datatype Phase =
    | Waiting(req: Request)
    | Holding(req: Request)
    | Planned(job: Job)
    | Checked(job: Job)
    | Copying(job: Job, saved: string)
    | BackedUp(job: Job, saved: string)
    | Writing(job: Job, saved: string)
    | Staged(job: Job, saved: string)
    | Swapped(job: Job)
    | Done(req: Request, status: int, fault: bool)  // fault: one of its system calls failed
    | Lost

  // One replacement of the live file, with the name its backup was given.
  datatype Commit = Commit(id: nat, job: Job, saved: string)

  datatype Sys = Sys(disk: Disk, owner: Option<nat>, procs: map<nat, Phase>,
                     views: map<nat, Option<string>>, log: seq<Commit>)

  // The handlers, as far as the protocol is concerned.
  datatype Env = Env(
    valid: string -> bool,
    admits: Request -> bool,
    plan: (Request, Disk) -> Plan,
    rejected: Request -> int,
    answered: (Request, Option<string>) -> int)

  ghost predicate WellBehaved(env: Env) {
    && (forall req, d :: env.plan(req, d).Refuse? ==> env.plan(req, d).status in {400, 409, 500})
    && (forall req :: env.rejected(req) in {422, 500})
    && (forall req, live :: env.answered(req, live) in {200, 500})
  }

  datatype Action =
    | Arrive(id: nat, req: Request)
    | Acquire(id: nat)
    | MakePlan(id: nat)
    | Check(id: nat)
    | StartBackup(id: nat, name: string, cut: nat)
    | FinishBackup(id: nat)
    | StartTmp(id: nat, cut: nat)
    | FinishTmp(id: nat)
    | Rename(id: nat)
    | Reply(id: nat)
    | FailTest(id: nat)    // the command of the check cannot be run
    | FailReload(id: nat)
    | Fail(id: nat)
    | Read(id: nat)
    | Snapshot(name: string, cut: nat)
    | Discard(name: string)
    | Crash

  predicate Critical(ph: Phase) {
    !ph.Waiting? && !ph.Done? && !ph.Lost?
  }

  predicate Enabled(s: Sys, a: Action) {
    match a
    case Arrive(id, _) => id !in s.procs
    case Acquire(id) => id in s.procs && s.procs[id].Waiting? && s.owner.None?
    case MakePlan(id) => id in s.procs && s.procs[id].Holding?
    case Check(id) => id in s.procs && s.procs[id].Planned?
    case StartBackup(id, _, _) => id in s.procs && s.procs[id].Checked?
    case FinishBackup(id) => id in s.procs && s.procs[id].Copying? && s.disk.live.Some?
    case StartTmp(id, _) => id in s.procs && s.procs[id].BackedUp?
    case FinishTmp(id) => id in s.procs && s.procs[id].Writing?
    case Rename(id) => id in s.procs && s.procs[id].Staged?
    case Reply(id) => id in s.procs && s.procs[id].Swapped?
    case FailTest(id) => id in s.procs && s.procs[id].Planned?
    case FailReload(id) => id in s.procs && s.procs[id].Swapped? && Reloads(s.procs[id].job.req)
    case Fail(id) => id in s.procs && Critical(s.procs[id]) && !s.procs[id].Swapped?
    case Read(id) => id !in s.views
    case Snapshot(_, _) => s.owner.None? && s.disk.live.Some?
    case Discard(_) => true
    case Crash => true
  }

  function Move(s: Sys, id: nat, ph: Phase): Sys { s.(procs := s.procs[id := ph]) }

  function Release(s: Sys, id: nat, ph: Phase): Sys { Move(s, id, ph).(owner := None) }

  function RequestOf(ph: Phase): Request
    requires Critical(ph)
  {
    if ph.Holding? then ph.req else ph.job.req
  }

  function Do(env: Env, s: Sys, a: Action): Sys
    requires Enabled(s, a)
  {
    match a
    case Arrive(id, req) =>
      Move(s, id, if env.admits(req) then Waiting(req) else Done(req, 400, false))
    case Acquire(id) => Move(s, id, Holding(s.procs[id].req)).(owner := Some(id))
    case MakePlan(id) =>
      var req := s.procs[id].req;
      (match env.plan(req, s.disk)
       case Refuse(status) => Release(s, id, Done(req, status, false))
       case Install(text) => Move(s, id, Planned(Job(req, s.disk, text))))
    case Check(id) =>
      var job := s.procs[id].job;
      if env.valid(job.text) then Move(s, id, Checked(job))
      else Release(s, id, Done(job.req, env.rejected(job.req), false))
    case StartBackup(id, name, cut) =>
      var job := s.procs[id].job;
      if s.disk.live.None? then Move(s, id, BackedUp(job, name))
      else Move(s, id, Copying(job, name)).(disk := BackupCut(s.disk, name, cut))
    case FinishBackup(id) =>
      var ph := s.procs[id];  // a file deleted while it is being written stays gone
      Move(s, id, BackedUp(ph.job, ph.saved)).
        (disk := if ph.saved in s.disk.backups then BackupDone(s.disk, ph.saved) else s.disk)
    case StartTmp(id, cut) =>
      var ph := s.procs[id];
      Move(s, id, Writing(ph.job, ph.saved)).(disk := TmpCut(s.disk, ph.job.text, cut))
    case FinishTmp(id) =>
      var ph := s.procs[id];
      Move(s, id, Staged(ph.job, ph.saved)).(disk := TmpDone(s.disk, ph.job.text))
    case Rename(id) =>
      var ph := s.procs[id];
      Move(s, id, Swapped(ph.job)).(disk := Renamed(s.disk), log := s.log + [Commit(id, ph.job, ph.saved)])
    case Reply(id) =>
      var req := s.procs[id].job.req;
      Release(s, id, Done(req, env.answered(req, s.disk.live), false))
    case FailTest(id) =>
      var req := s.procs[id].job.req;
      Release(s, id, Done(req, env.rejected(req), true))
    case FailReload(id) => Release(s, id, Done(s.procs[id].job.req, 500, true))
    case Fail(id) => Release(s, id, Done(RequestOf(s.procs[id]), 500, true))
    case Read(id) => s.(views := s.views[id := s.disk.live])
    case Snapshot(name, cut) => s.(disk := BackupCut(s.disk, name, cut))
    case Discard(name) => s.(disk := s.disk.(backups := s.disk.backups - {name}))
    case Crash =>
      s.(owner := None, procs := map id | id in s.procs :: if s.procs[id].Done? then s.procs[id] else Lost)
  }

  function After(env: Env, s: Sys, acts: seq<Action>): Option<Sys>
    decreases |acts|
  {
    if acts == [] then Some(s)
    else
      match After(env, s, acts[..|acts| - 1])
      case None => None
      case Some(m) => if Enabled(m, acts[|acts| - 1]) then Some(Do(env, m, acts[|acts| - 1])) else None
  }

  function Start(disk: Disk): Sys { Sys(disk, None, map[], map[], []) }

  // ---- the invariant -----------------------------------------------------

  predicate Committed(log: seq<Commit>, id: nat) {
    exists k :: 0 <= k < |log| && log[k].id == id
  }

  predicate PlanOk(env: Env, job: Job) {
    env.plan(job.req, job.at) == Install(job.text)
  }

  // The file that the k-th commit replaced.
  function Replaces(init: Option<string>, log: seq<Commit>, k: nat): Option<string>
    requires k <= |log|
  {
    if k == 0 then init else Some(log[k - 1].job.text)
  }

  // A commit was planned on the very file that it replaced.
  predicate Link(env: Env, init: Option<string>, log: seq<Commit>, k: nat)
    requires k < |log|
  {
    && log[k].job.at.live == Replaces(init, log, k)
    && PlanOk(env, log[k].job) && env.valid(log[k].job.text)
  }

  predicate DistinctIds(log: seq<Commit>) {
    forall j, k :: 0 <= j < k < |log| ==> log[j].id != log[k].id
  }

  // The live file is the initial one with the commits applied one after the
  // other.
  predicate Chain(env: Env, init: Option<string>, log: seq<Commit>, live: Option<string>) {
    && live == Replaces(init, log, |log|)
    && (forall k :: 0 <= k < |log| ==> Link(env, init, log, k))
    && DistinctIds(log)
  }

  // What the process in the critical section may rely on.
  predicate HolderOk(env: Env, disk: Disk, log: seq<Commit>, id: nat, ph: Phase) {
    match ph
    case Holding(_) => !Committed(log, id)
    case Swapped(job) =>
      |log| > 0 && log[|log| - 1].id == id && log[|log| - 1].job == job && disk.live == Some(job.text)
    case Planned(job) => !Committed(log, id) && PlanOk(env, job) && job.at.live == disk.live
    case Checked(job) => !Committed(log, id) && PlanOk(env, job) && job.at.live == disk.live && env.valid(job.text)
    case Copying(job, _) =>
      !Committed(log, id) && PlanOk(env, job) && job.at.live == disk.live && env.valid(job.text)
      && disk.live.Some?
    case BackedUp(job, _) => !Committed(log, id) && PlanOk(env, job) && job.at.live == disk.live && env.valid(job.text)
    case Writing(job, _) => !Committed(log, id) && PlanOk(env, job) && job.at.live == disk.live && env.valid(job.text)
    case Staged(job, _) =>
      !Committed(log, id) && PlanOk(env, job) && job.at.live == disk.live && env.valid(job.text)
      && disk.tmp == Some(job.text)
    case _ => false
  }

  // The answer to a request whose content was installed.
  predicate TrueAnswer(env: Env, job: Job, req: Request, status: int, fault: bool) {
    job.req == req
    && if fault then Reloads(req) && status == 500 else status == env.answered(req, Some(job.text))
  }

  predicate Answered(env: Env, log: seq<Commit>, id: nat, req: Request, status: int, fault: bool) {
    && (forall k :: 0 <= k < |log| && log[k].id == id ==> TrueAnswer(env, log[k].job, req, status, fault))
    && (status == 200 ==> Committed(log, id))
  }

  // What remains true of a process outside it.
  predicate SettledOk(env: Env, log: seq<Commit>, id: nat, ph: Phase) {
    match ph
    case Waiting(_) => !Committed(log, id)
    case Done(req, status, fault) => Answered(env, log, id, req, status, fault)
    case _ => true
  }

  predicate LockOk(s: Sys) {
    && (s.owner.Some? ==> s.owner.value in s.procs)
    && (forall id :: id in s.procs ==> (Critical(s.procs[id]) <==> s.owner == Some(id)))
  }

  predicate Inv(env: Env, init: Option<string>, s: Sys) {
    && LockOk(s)
    && (s.owner.Some? ==> HolderOk(env, s.disk, s.log, s.owner.value, s.procs[s.owner.value]))
    && (forall id :: id in s.procs && s.owner != Some(id) ==> SettledOk(env, s.log, id, s.procs[id]))
    && (forall k :: 0 <= k < |s.log| ==> s.log[k].id in s.procs)
    && Chain(env, init, s.log, s.disk.live)
  }

  lemma StartInv(env: Env, disk: Disk)
    ensures Inv(env, disk.live, Start(disk))
  {
  }

  // A step of the holder that leaves the live file alone.
  lemma HolderMoves(env: Env, init: Option<string>, s: Sys, id: nat, ph: Phase, disk: Disk)
    requires Inv(env, init, s) && s.owner == Some(id) && Critical(ph) && disk.live == s.disk.live
    requires HolderOk(env, disk, s.log, id, ph)
    ensures Inv(env, init, Move(s, id, ph).(disk := disk))
  {
  }

  lemma HolderLeaves(env: Env, init: Option<string>, s: Sys, id: nat, ph: Phase)
    requires Inv(env, init, s) && s.owner == Some(id) && !Critical(ph)
    requires SettledOk(env, s.log, id, ph)
    ensures Inv(env, init, Release(s, id, ph))
  {
  }

  lemma HolderFacts(env: Env, init: Option<string>, s: Sys, id: nat)
    requires Inv(env, init, s) && id in s.procs && Critical(s.procs[id])
    ensures s.owner == Some(id) && HolderOk(env, s.disk, s.log, id, s.procs[id])
  {
  }

  lemma PlanStep(env: Env, init: Option<string>, s: Sys, id: nat)
    requires WellBehaved(env) && Inv(env, init, s) && Enabled(s, MakePlan(id))
    ensures Inv(env, init, Do(env, s, MakePlan(id)))
  {
    var req := s.procs[id].req;
    HolderFacts(env, init, s, id);
    match env.plan(req, s.disk)
    case Refuse(status) => HolderLeaves(env, init, s, id, Done(req, status, false));
    case Install(text) => HolderMoves(env, init, s, id, Planned(Job(req, s.disk, text)), s.disk);
  }

  lemma CheckStep(env: Env, init: Option<string>, s: Sys, id: nat)
    requires WellBehaved(env) && Inv(env, init, s) && Enabled(s, Check(id))
    ensures Inv(env, init, Do(env, s, Check(id)))
  {
    var job := s.procs[id].job;
    HolderFacts(env, init, s, id);
    if env.valid(job.text) {
      HolderMoves(env, init, s, id, Checked(job), s.disk);
    } else {
      HolderLeaves(env, init, s, id, Done(job.req, env.rejected(job.req), false));
    }
  }

  lemma WriteStep(env: Env, init: Option<string>, s: Sys, a: Action)
    requires Inv(env, init, s) && Enabled(s, a)
    requires a.StartBackup? || a.FinishBackup? || a.StartTmp? || a.FinishTmp?
    ensures Inv(env, init, Do(env, s, a))
  {
    var t := Do(env, s, a);
    HolderFacts(env, init, s, a.id);
    HolderMoves(env, init, s, a.id, t.procs[a.id], t.disk);
  }

  lemma LeaveStep(env: Env, init: Option<string>, s: Sys, a: Action)
    requires WellBehaved(env) && Inv(env, init, s) && Enabled(s, a)
    requires a.Reply? || a.FailTest? || a.FailReload? || a.Fail?
    ensures Inv(env, init, Do(env, s, a))
  {
    HolderFacts(env, init, s, a.id);
    if a.Reply? || a.FailReload? {
      OnlyLast(s.log, a.id);
    }
    HolderLeaves(env, init, s, a.id, Do(env, s, a).procs[a.id]);
  }

  lemma OnlyLast(log: seq<Commit>, id: nat)
    requires DistinctIds(log) && |log| > 0 && log[|log| - 1].id == id
    ensures Committed(log, id) && forall k :: 0 <= k < |log| && log[k].id == id ==> k == |log| - 1
  {
  }

  lemma SettledStep(env: Env, init: Option<string>, s: Sys, a: Action)
    requires WellBehaved(env) && Inv(env, init, s) && Enabled(s, a) && (a.Arrive? || a.Acquire?)
    ensures Inv(env, init, Do(env, s, a))
  {
  }

  lemma BystanderStep(env: Env, init: Option<string>, s: Sys, a: Action)
    requires Inv(env, init, s) && Enabled(s, a) && (a.Read? || a.Snapshot? || a.Discard?)
    ensures Inv(env, init, Do(env, s, a))
  {
    var t := Do(env, s, a);
    if s.owner.Some? {
      var id := s.owner.value;
      HolderMoves(env, init, s, id, s.procs[id], t.disk);
      assert Move(s, id, s.procs[id]).procs == s.procs;
    }
  }

  lemma CrashStep(env: Env, init: Option<string>, s: Sys)
    requires Inv(env, init, s)
    ensures Inv(env, init, Do(env, s, Crash))
  {
  }

  lemma RenameStep(env: Env, init: Option<string>, s: Sys, id: nat)
    requires Inv(env, init, s) && Enabled(s, Rename(id))
    ensures Inv(env, init, Do(env, s, Rename(id)))
  {
    var c := Commit(id, s.procs[id].job, s.procs[id].saved);
    HolderFacts(env, init, s, id);
    ChainGrows(env, init, s.log, s.disk.live, c);
    assert (s.log + [c])[|s.log|] == c;
    forall i | i in s.procs && i != id
      ensures SettledOk(env, s.log + [c], i, s.procs[i])
    {
      LogGrows(env, s.log, c, i, s.procs[i]);
    }
  }

  lemma ChainGrows(env: Env, init: Option<string>, log: seq<Commit>, live: Option<string>, c: Commit)
    requires Chain(env, init, log, live) && !Committed(log, c.id)
    requires PlanOk(env, c.job) && env.valid(c.job.text) && c.job.at.live == live
    ensures Chain(env, init, log + [c], Some(c.job.text))
  {
    var more := log + [c];
    forall k | 0 <= k < |more|
      ensures Link(env, init, more, k)
    {
      if k < |log| {
        assert Link(env, init, log, k);
      }
    }
  }

  lemma LogGrows(env: Env, log: seq<Commit>, c: Commit, id: nat, ph: Phase)
    requires SettledOk(env, log, id, ph) && c.id != id
    ensures SettledOk(env, log + [c], id, ph)
  {
    var more := log + [c];
    assert forall k :: 0 <= k < |log| ==> more[k] == log[k];
    if Committed(log, id) {
      var k :| 0 <= k < |log| && log[k].id == id;
      assert more[k].id == id;
    }
  }

  lemma StepKeeps(env: Env, init: Option<string>, s: Sys, a: Action)
    requires WellBehaved(env) && Inv(env, init, s) && Enabled(s, a)
    ensures Inv(env, init, Do(env, s, a))
  {
    match a
    case Arrive(_, _) => SettledStep(env, init, s, a);
    case Acquire(_) => SettledStep(env, init, s, a);
    case MakePlan(id) => PlanStep(env, init, s, id);
    case Check(id) => CheckStep(env, init, s, id);
    case StartBackup(_, _, _) => WriteStep(env, init, s, a);
    case FinishBackup(_) => WriteStep(env, init, s, a);
    case StartTmp(_, _) => WriteStep(env, init, s, a);
    case FinishTmp(_) => WriteStep(env, init, s, a);
    case Rename(id) => RenameStep(env, init, s, id);
    case Reply(_) => LeaveStep(env, init, s, a);
    case FailTest(_) => LeaveStep(env, init, s, a);
    case FailReload(_) => LeaveStep(env, init, s, a);
    case Fail(_) => LeaveStep(env, init, s, a);
    case Read(_) => BystanderStep(env, init, s, a);
    case Snapshot(_, _) => BystanderStep(env, init, s, a);
    case Discard(_) => BystanderStep(env, init, s, a);
    case Crash => CrashStep(env, init, s);
  }

  lemma {:induction false} RunKeeps(env: Env, disk: Disk, acts: seq<Action>)
    requires WellBehaved(env) && After(env, Start(disk), acts).Some?
    ensures Inv(env, disk.live, After(env, Start(disk), acts).value)
    decreases |acts|
  {
    if acts == [] {
      StartInv(env, disk);
    } else {
      var before := acts[..|acts| - 1];
      RunKeeps(env, disk, before);
      StepKeeps(env, disk.live, After(env, Start(disk), before).value, acts[|acts| - 1]);
    }
  }

  // ---- readers -------------------------------------------------------------

  // The file as it was at first, or as one of the commits left it.
  predicate Whole(init: Option<string>, log: seq<Commit>, view: Option<string>) {
    exists j :: 0 <= j <= |log| && view == Replaces(init, log, j)
  }

  lemma WholeStays(init: Option<string>, log: seq<Commit>, c: Commit, view: Option<string>)
    requires Whole(init, log, view)
    ensures Whole(init, log + [c], view)
  {
    var j :| 0 <= j <= |log| && view == Replaces(init, log, j);
    assert Replaces(init, log + [c], j) == view;
  }

  lemma {:induction false} ViewsAreWhole(env: Env, disk: Disk, acts: seq<Action>)
    requires WellBehaved(env) && After(env, Start(disk), acts).Some?
    ensures var s := After(env, Start(disk), acts).value;
            forall id :: id in s.views ==> Whole(disk.live, s.log, s.views[id])
    decreases |acts|
  {
    if acts != [] {
      var before, a := acts[..|acts| - 1], acts[|acts| - 1];
      var m := After(env, Start(disk), before).value;
      ViewsAreWhole(env, disk, before);
      RunKeeps(env, disk, before);
      assert m.disk.live == Replaces(disk.live, m.log, |m.log|);
      forall id | id in Do(env, m, a).views
        ensures Whole(disk.live, Do(env, m, a).log, Do(env, m, a).views[id])
      {
        if a.Rename? {
          WholeStays(disk.live, m.log, Commit(a.id, m.procs[a.id].job, m.procs[a.id].saved), m.views[id]);
        }
      }
    }
  }

  // ---- the lock is given back ------------------------------------------------

  // The next step of the process in the critical section when nothing fails.
  function OwnStep(id: nat, ph: Phase, name: string): Action
    requires Critical(ph)
  {
    match ph
    case Holding(_) => MakePlan(id)
    case Planned(_) => Check(id)
    case Checked(_) => StartBackup(id, name, 0)
    case Copying(_, _) => FinishBackup(id)
    case BackedUp(_, _) => StartTmp(id, 0)
    case Writing(_, _) => FinishTmp(id)
    case Staged(_, _) => Rename(id)
    case Swapped(_) => Reply(id)
  }

  // Steps still to go.
  function ToGo(ph: Phase): nat {
    match ph
    case Holding(_) => 8
    case Planned(_) => 7
    case Checked(_) => 6
    case Copying(_, _) => 5
    case BackedUp(_, _) => 4
    case Writing(_, _) => 3
    case Staged(_, _) => 2
    case Swapped(_) => 1
    case _ => 0
  }

  lemma OwnerCanStep(env: Env, init: Option<string>, s: Sys, name: string)
    requires Inv(env, init, s) && s.owner.Some?
    ensures s.owner.value in s.procs && Critical(s.procs[s.owner.value])
    ensures Enabled(s, OwnStep(s.owner.value, s.procs[s.owner.value], name))
  {
  }

  lemma OwnStepAdvances(env: Env, s: Sys, id: nat, name: string)
    requires s.owner == Some(id) && id in s.procs && Critical(s.procs[id])
    requires Enabled(s, OwnStep(id, s.procs[id], name))
    ensures var t := Do(env, s, OwnStep(id, s.procs[id], name));
            && id in t.procs && ToGo(t.procs[id]) < ToGo(s.procs[id])
            && (if t.owner == None then t.procs[id].Done? && !t.procs[id].fault
                else t.owner == Some(id) && Critical(t.procs[id]))
  {
  }

  predicate OwnAction(a: Action, id: nat) {
    (a.MakePlan? || a.Check? || a.StartBackup? || a.FinishBackup? || a.StartTmp? || a.FinishTmp? || a.Rename?
     || a.Reply?)
    && a.id == id
  }

  ghost predicate LeadsTo(env: Env, disk: Disk, acts: seq<Action>, s: Sys) { After(env, Start(disk), acts) == Some(s) }

  lemma OneOwnStep(env: Env, disk: Disk, acts: seq<Action>, s: Sys, id: nat, name: string)
    returns (a: Action, t: Sys)
    requires WellBehaved(env) && LeadsTo(env, disk, acts, s) && s.owner == Some(id)
    ensures id in s.procs && OwnAction(a, id) && LeadsTo(env, disk, acts + [a], t)
    ensures id in t.procs && ToGo(t.procs[id]) < ToGo(s.procs[id])
    ensures t.owner == Some(id) || (t.owner == None && t.procs[id].Done? && !t.procs[id].fault)
  {
    RunKeeps(env, disk, acts);
    OwnerCanStep(env, disk.live, s, name);
    a := OwnStep(id, s.procs[id], name);
    t := Do(env, s, a);
    OwnStepAdvances(env, s, id, name);
    OneMore(env, disk, acts, a);
  }

  // In every reachable state: whoever holds the lock can, by at most eight
  // steps of its own and none of anyone else, answer its request and give the
  // lock back. Nothing that happened before can have blocked it.
  lemma {:induction false} LockIsReleased(env: Env, disk: Disk, acts: seq<Action>, s: Sys, id: nat, name: string)
    returns (more: seq<Action>, t: Sys)
    requires WellBehaved(env) && LeadsTo(env, disk, acts, s) && s.owner == Some(id)
    ensures id in s.procs && |more| <= ToGo(s.procs[id]) <= 8
    ensures forall i :: 0 <= i < |more| ==> OwnAction(more[i], id)
    ensures LeadsTo(env, disk, acts + more, t)
    ensures t.owner == None && id in t.procs && t.procs[id].Done? && !t.procs[id].fault
    decreases if id in s.procs then ToGo(s.procs[id]) else 0
  {
    var a, m := OneOwnStep(env, disk, acts, s, id, name);
    if m.owner == None {
      more, t := [a], m;
    } else {
      var rest;
      rest, t := LockIsReleased(env, disk, acts + [a], m, id, name);
      more := [a] + rest;
      assert acts + [a] + rest == acts + more;
    }
  }

  lemma OneMore(env: Env, disk: Disk, acts: seq<Action>, a: Action)
    requires After(env, Start(disk), acts).Some? && Enabled(After(env, Start(disk), acts).value, a)
    ensures After(env, Start(disk), acts + [a]) == Some(Do(env, After(env, Start(disk), acts).value, a))
  {
    assert (acts + [a])[..|acts + [a]| - 1] == acts;
  }
}
