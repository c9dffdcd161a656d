// Which backups can be relied on: what a run may do to the name of a backup
// without spoiling the content that was saved under it.
module Backups {
  import opened Text
  import opened ConfWriter
  import opened Protocol

  // ---- which actions concern a name ----------------------------------------

  predicate Touches(a: Action, name: string) {
    match a
    case StartBackup(_, n, _) => n == name
    case Snapshot(n, _) => n == name
    case Discard(n) => n == name
    case _ => false
  }

  // The last action of the run that wrote or deleted under the name, or -1.
  function LastTouch(acts: seq<Action>, name: string): (i: int)
    ensures -1 <= i < |acts|
    ensures i >= 0 ==> Touches(acts[i], name)
    ensures forall j :: i < j < |acts| ==> !Touches(acts[j], name)
  {
    if acts == [] then -1
    else if Touches(acts[|acts| - 1], name) then |acts| - 1
    else LastTouch(acts[..|acts| - 1], name)
  }

  predicate StartsBackup(a: Action, id: nat, name: string) { a.StartBackup? && a.id == id && a.name == name }

  predicate OwnBackupLast(acts: seq<Action>, c: Commit) {
    var i := LastTouch(acts, c.saved);
    i >= 0 && StartsBackup(acts[i], c.id, c.saved)
  }

  // ---- what stays true once the backup has been started --------------------

  predicate InBackup(backups: map<string, string>, name: string, content: Option<string>) {
    content.Some? ==> name in backups && backups[name] == content.value
  }

  // The process the backup belongs to, from its backup onwards.
  predicate Saving(d: Disk, ph: Phase, name: string) {
    match ph
    case Copying(_, saved) => saved == name && name in d.backups
    case BackedUp(job, saved) => saved == name && InBackup(d.backups, name, job.at.live)
    case Writing(job, saved) => saved == name && InBackup(d.backups, name, job.at.live)
    case Staged(job, saved) => saved == name && InBackup(d.backups, name, job.at.live)
    case Swapped(_) => true
    case Done(_, _, _) => true
    case Lost => true
    case _ => false
  }

  predicate CommitKept(backups: map<string, string>, c: Commit, id: nat, name: string) {
    c.id == id ==> c.saved == name && InBackup(backups, name, c.job.at.live)
  }

  predicate Kept(s: Sys, id: nat, name: string) {
    && id in s.procs && Saving(s.disk, s.procs[id], name)
    && (forall k :: 0 <= k < |s.log| ==> CommitKept(s.disk.backups, s.log[k], id, name))
    && (forall other :: other in s.procs && other != id && s.procs[other].Copying? ==> s.procs[other].saved != name)
  }

  lemma KeptFromStart(env: Env, init: Option<string>, s: Sys, id: nat, name: string, cut: nat)
    requires Inv(env, init, s) && Enabled(s, StartBackup(id, name, cut))
    ensures Kept(Do(env, s, StartBackup(id, name, cut)), id, name)
  {
    HolderFacts(env, init, s, id);
    var t := Do(env, s, StartBackup(id, name, cut));
    forall k | 0 <= k < |t.log|
      ensures t.log[k].id != id
    {
      assert !Committed(s.log, id);
    }
  }

  // Steps of other processes and bystanders: the backup itself is untouched.
  lemma KeptFrame(s: Sys, t: Sys, id: nat, name: string)
    requires Kept(s, id, name) && id in t.procs
    requires t.procs[id] == s.procs[id] || t.procs[id].Done? || t.procs[id].Lost?
    requires name in s.disk.backups ==> name in t.disk.backups && t.disk.backups[name] == s.disk.backups[name]
    requires t.log == s.log || (|t.log| == |s.log| + 1 && t.log[..|s.log|] == s.log && t.log[|s.log|].id != id)
    requires forall other :: other in t.procs && other != id && t.procs[other].Copying? ==>
               t.procs[other].saved != name
    ensures Kept(t, id, name)
  {
    forall k | 0 <= k < |t.log|
      ensures CommitKept(t.disk.backups, t.log[k], id, name)
    {
      if k < |s.log| {
        assert t.log[k] == s.log[k];
        assert CommitKept(s.disk.backups, s.log[k], id, name);
      }
    }
  }

  // Steps of the process itself.
  lemma KeptOwnStep(env: Env, init: Option<string>, s: Sys, a: Action, id: nat, name: string)
    requires Inv(env, init, s) && Kept(s, id, name) && Enabled(s, a)
    requires a in {FinishBackup(id), FinishTmp(id), Rename(id)} || (a.StartTmp? && a.id == id)
    ensures Kept(Do(env, s, a), id, name)
  {
    HolderFacts(env, init, s, id);
    var t := Do(env, s, a);
    forall k | 0 <= k < |t.log|
      ensures CommitKept(t.disk.backups, t.log[k], id, name)
    {
      if k < |s.log| {
        assert t.log[k] == s.log[k];
        assert CommitKept(s.disk.backups, s.log[k], id, name);
        assert !Committed(s.log, id);
      }
    }
  }

  // What another process does to the disk in the critical section.
  lemma KeptOthersWrite(env: Env, s: Sys, a: Action, id: nat, name: string)
    requires Kept(s, id, name) && Enabled(s, a) && !Touches(a, name)
    requires (a.StartBackup? || a.FinishBackup? || a.StartTmp? || a.FinishTmp? || a.Rename?) && a.id != id
    ensures Kept(Do(env, s, a), id, name)
  {
    KeptFrame(s, Do(env, s, a), id, name);
  }

  lemma KeptDecision(env: Env, s: Sys, a: Action, id: nat, name: string)
    requires Kept(s, id, name) && Enabled(s, a)
    requires a.Arrive? || a.Acquire? || a.MakePlan? || a.Check?
    ensures Kept(Do(env, s, a), id, name)
  {
    KeptFrame(s, Do(env, s, a), id, name);
  }

  lemma KeptAnswer(env: Env, s: Sys, a: Action, id: nat, name: string)
    requires Kept(s, id, name) && Enabled(s, a) && (a.Reply? || a.FailTest? || a.FailReload? || a.Fail? || a.Crash?)
    ensures Kept(Do(env, s, a), id, name)
  {
    KeptFrame(s, Do(env, s, a), id, name);
  }

  lemma KeptBystander(env: Env, s: Sys, a: Action, id: nat, name: string)
    requires Kept(s, id, name) && Enabled(s, a) && !Touches(a, name) && (a.Read? || a.Snapshot? || a.Discard?)
    ensures Kept(Do(env, s, a), id, name)
  {
    KeptFrame(s, Do(env, s, a), id, name);
  }

  lemma KeptStep(env: Env, init: Option<string>, s: Sys, a: Action, id: nat, name: string)
    requires Inv(env, init, s) && Kept(s, id, name) && Enabled(s, a) && !Touches(a, name)
    ensures Kept(Do(env, s, a), id, name)
  {
    if a.Arrive? || a.Acquire? || a.MakePlan? || a.Check? {
      KeptDecision(env, s, a, id, name);
    } else if a.Reply? || a.FailTest? || a.FailReload? || a.Fail? || a.Crash? {
      KeptAnswer(env, s, a, id, name);
    } else if a.Read? || a.Snapshot? || a.Discard? {
      KeptBystander(env, s, a, id, name);
    } else if a.id != id {
      KeptOthersWrite(env, s, a, id, name);
    } else {
      KeptOwnStep(env, init, s, a, id, name);
    }
  }

  lemma {:induction false} KeptFrom(env: Env, disk: Disk, acts: seq<Action>, i: nat, id: nat, name: string)
    requires WellBehaved(env) && After(env, Start(disk), acts).Some?
    requires i < |acts| && StartsBackup(acts[i], id, name)
    requires forall j :: i < j < |acts| ==> !Touches(acts[j], name)
    ensures Kept(After(env, Start(disk), acts).value, id, name)
    decreases |acts|
  {
    var before := acts[..|acts| - 1];
    RunKeeps(env, disk, before);
    var m := After(env, Start(disk), before).value;
    if i == |acts| - 1 {
      KeptFromStart(env, disk.live, m, id, name, acts[i].cut);
    } else {
      KeptFrom(env, disk, before, i, id, name);
      KeptStep(env, disk.live, m, acts[|acts| - 1], id, name);
    }
  }

  // In every run, crashes and faults included: if the last action to touch
  // the name of a backup was that backup, it holds all that was replaced.
  lemma BackupSurvives(env: Env, disk: Disk, acts: seq<Action>, k: nat)
    requires WellBehaved(env) && After(env, Start(disk), acts).Some?
    requires k < |After(env, Start(disk), acts).value.log|
    requires OwnBackupLast(acts, After(env, Start(disk), acts).value.log[k])
    ensures var s := After(env, Start(disk), acts).value;
            InBackup(s.disk.backups, s.log[k].saved, s.log[k].job.at.live)
  {
    var s := After(env, Start(disk), acts).value;
    var c := s.log[k];
    KeptFrom(env, disk, acts, LastTouch(acts, c.saved), c.id, c.saved);
    assert CommitKept(s.disk.backups, c, c.id, c.saved);
  }

  // ---- runs that use every name once ----------------------------------------

  // Nothing is deleted, and no two backups get the same name.
  ghost predicate NamesUsedOnce(acts: seq<Action>) {
    && (forall i :: 0 <= i < |acts| ==> !acts[i].Discard?)
    && (forall i, j, name :: 0 <= i < j < |acts| && Touches(acts[i], name) ==> !Touches(acts[j], name))
  }

  predicate Started(acts: seq<Action>, id: nat, name: string) {
    exists i :: 0 <= i < |acts| && StartsBackup(acts[i], id, name)
  }

  lemma StillStarted(acts: seq<Action>, more: seq<Action>, id: nat, name: string)
    requires |acts| <= |more| && more[..|acts|] == acts && Started(acts, id, name)
    ensures Started(more, id, name)
  {
    var i :| 0 <= i < |acts| && StartsBackup(acts[i], id, name);
    assert more[i] == acts[i];
  }

  predicate HasSaved(ph: Phase) { ph.Copying? || ph.BackedUp? || ph.Writing? || ph.Staged? }

  predicate AllStarted(acts: seq<Action>, s: Sys) {
    && (forall id :: id in s.procs && HasSaved(s.procs[id]) ==> Started(acts, id, s.procs[id].saved))
    && (forall k :: 0 <= k < |s.log| ==> Started(acts, s.log[k].id, s.log[k].saved))
  }

  lemma {:induction false} EveryBackupStarted(env: Env, disk: Disk, acts: seq<Action>)
    requires After(env, Start(disk), acts).Some?
    ensures AllStarted(acts, After(env, Start(disk), acts).value)
    decreases |acts|
  {
    if acts != [] {
      var before, a := acts[..|acts| - 1], acts[|acts| - 1];
      var m := After(env, Start(disk), before).value;
      EveryBackupStarted(env, disk, before);
      StartedStep(env, m, a, before, acts);
    }
  }

  lemma StartedStep(env: Env, m: Sys, a: Action, before: seq<Action>, acts: seq<Action>)
    requires AllStarted(before, m) && Enabled(m, a) && acts == before + [a]
    ensures AllStarted(acts, Do(env, m, a))
  {
    var t := Do(env, m, a);
    forall id | id in t.procs && HasSaved(t.procs[id])
      ensures Started(acts, id, t.procs[id].saved)
    {
      if a.StartBackup? && a.id == id {
        assert StartsBackup(acts[|before|], id, t.procs[id].saved);
      } else {
        StillStarted(before, acts, id, t.procs[id].saved);
      }
    }
    forall k | 0 <= k < |t.log|
      ensures Started(acts, t.log[k].id, t.log[k].saved)
    {
      StillStarted(before, acts, t.log[k].id, t.log[k].saved);
    }
  }

  lemma OwnBackupIsLast(env: Env, disk: Disk, acts: seq<Action>, k: nat)
    requires After(env, Start(disk), acts).Some? && NamesUsedOnce(acts)
    requires k < |After(env, Start(disk), acts).value.log|
    ensures OwnBackupLast(acts, After(env, Start(disk), acts).value.log[k])
  {
    var c := After(env, Start(disk), acts).value.log[k];
    EveryBackupStarted(env, disk, acts);
    OnlyTouch(acts, c);
  }

  lemma OnlyTouch(acts: seq<Action>, c: Commit)
    requires NamesUsedOnce(acts) && Started(acts, c.id, c.saved)
    ensures OwnBackupLast(acts, c)
  {
    var i :| 0 <= i < |acts| && StartsBackup(acts[i], c.id, c.saved);
    var j := LastTouch(acts, c.saved);
    assert Touches(acts[i], c.saved) && Touches(acts[j], c.saved);
  }
}
