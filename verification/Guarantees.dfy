// What users of the console can rely on, in every interleaving of requests,
// readers, input/output faults and crashes.
module Guarantees {
  import opened Text
  import opened ConfText
  import opened ConfWriter
  import opened Requests
  import opened Protocol
  import opened Backups
  import opened Reload
  import opened Conditions

  function ConsoleEnv(valid: string -> bool, digest: string -> string): Env {
    Env(valid,
        (req: Request) => !req.Change? || Admissible(req.edit),
        (req, d) => PlanFor(req, d, digest),
        RejectStatus,
        FinalStatus)
  }

  lemma PlanStatus(req: Request, d: Disk, digest: string -> string)
    requires PlanFor(req, d, digest).Refuse?
    ensures PlanFor(req, d, digest).status in {400, 409, 500}
  {
  }

  lemma ConsoleWellBehaved(valid: string -> bool, digest: string -> string)
    ensures WellBehaved(ConsoleEnv(valid, digest))
  {
    var env := ConsoleEnv(valid, digest);
    forall req, d | env.plan(req, d).Refuse?
      ensures env.plan(req, d).status in {400, 409, 500}
    {
      PlanStatus(req, d, digest);
    }
  }

  // A state of the system that some run leads to.
  ghost predicate Reached(valid: string -> bool, digest: string -> string, disk: Disk, acts: seq<Action>, s: Sys) {
    After(ConsoleEnv(valid, digest), Start(disk), acts) == Some(s)
  }

  // The live file is always the initial file changed by the logged requests
  // one after the other: each wrote what its handler computes from the very
  // file it replaced, and only content that passed validation.
  lemma Linearizable(valid: string -> bool, digest: string -> string, disk: Disk, acts: seq<Action>, s: Sys, k: nat)
    requires Reached(valid, digest, disk, acts, s)
    ensures s.disk.live == Replaces(disk.live, s.log, |s.log|)
    ensures k < |s.log| ==>
              && s.log[k].job.at.live == Replaces(disk.live, s.log, k)
              && PlanFor(s.log[k].job.req, s.log[k].job.at, digest) == Install(s.log[k].job.text)
              && valid(s.log[k].job.text)
  {
    var env := ConsoleEnv(valid, digest);
    ConsoleWellBehaved(valid, digest);
    RunKeeps(env, disk, acts);
    if k < |s.log| {
      assert Link(env, disk.live, s.log, k);
    }
  }

  // The answer a client got tells what happened to its request. `fault` means
  // that a system call of that request failed: with neither a fault nor an
  // unreadable result, 200 is the answer to exactly the committed requests.
  lemma AnswersTellTheTruth(valid: string -> bool, digest: string -> string, disk: Disk, acts: seq<Action>, s: Sys,
                            id: nat)
    requires Reached(valid, digest, disk, acts, s) && id in s.procs && s.procs[id].Done?
    ensures s.procs[id].status in {400, 409, 422} ==> !Committed(s.log, id)
    ensures s.procs[id].status == 200 ==> Committed(s.log, id)
    ensures forall k :: 0 <= k < |s.log| && s.log[k].id == id ==>
              && s.log[k].job.req == s.procs[id].req
              && s.procs[id].status in {200, 500}
              && (s.procs[id].status == 500 <==>
                    Reloads(s.procs[id].req) && (s.procs[id].fault || Load(Some(s.log[k].job.text)).None?))
    ensures forall j, k :: 0 <= j < k < |s.log| ==> !(s.log[j].id == id && s.log[k].id == id)
  {
    var env, ph := ConsoleEnv(valid, digest), s.procs[id];
    ConsoleWellBehaved(valid, digest);
    RunKeeps(env, disk, acts);
    assert SettledOk(env, s.log, id, ph);
    forall k | 0 <= k < |s.log| && s.log[k].id == id
      ensures TrueAnswer(env, s.log[k].job, ph.req, ph.status, ph.fault)
    {
    }
    assert DistinctIds(s.log);
  }

  // An edit that was committed made the file unreadable exactly when it wrote
  // a line too long for the scanner.
  lemma UnreadableExactly(valid: string -> bool, digest: string -> string, disk: Disk, acts: seq<Action>, s: Sys,
                          k: nat, e: Edit)
    requires Reached(valid, digest, disk, acts, s)
    requires k < |s.log| && s.log[k].job.req == Change(e)
    ensures Load(Replaces(disk.live, s.log, k)).Some?
    ensures Apply(e, Load(Replaces(disk.live, s.log, k)).value).Accepted?
    ensures Load(Some(s.log[k].job.text)).None?
            <==> !FitsBuffer(Written(e)) && Writes(e, Load(Replaces(disk.live, s.log, k)).value)
  {
    Linearizable(valid, digest, disk, acts, s, k);
    LoadedLines(s.log[k].job.at.live);
    EditReadable(e, Load(s.log[k].job.at.live).value);
  }

  // ---- no lost update ----------------------------------------------------

  // rev is the revision the server handed out for this content.
  predicate Issued(digest: string -> string, seen: Option<string>, rev: string) {
    rev != "" && Load(seen).Some? && rev == Rev(digest, Load(seen).value)
  }

  // A save is told that it is stale exactly when the lines have changed since
  // they were read.
  lemma StaleExactly(d: Disk, digest: string -> string, content: string, rev: string, seen: Option<string>)
    requires Injective(digest) && Issued(digest, seen, rev) && Load(d.live).Some?
    ensures PlanFor(PutRaw(content, rev), d, digest) == Refuse(409) <==> Load(d.live) != Load(seen)
    ensures PlanFor(PutRaw(content, rev), d, digest) == Install(Terminated(content)) <==> Load(d.live) == Load(seen)
  {
    LoadedLines(seen);
    LoadedLines(d.live);
    if Rev(digest, Load(d.live).value) == rev {
      SameRevSameLines(digest, Load(d.live).value, Load(seen).value);
    }
  }

  // In every run: a raw save that carries the revision of what its author
  // read replaced a file with exactly those lines.
  lemma NoLostUpdate(valid: string -> bool, digest: string -> string, disk: Disk, acts: seq<Action>, s: Sys,
                     k: nat, content: string, rev: string, seen: Option<string>)
    requires Reached(valid, digest, disk, acts, s) && Injective(digest)
    requires k < |s.log| && s.log[k].job.req == PutRaw(content, rev) && Issued(digest, seen, rev)
    ensures Load(Replaces(disk.live, s.log, k)) == Load(seen)
    ensures Replaces(disk.live, s.log, k + 1).Some? && SavedAs(content, Replaces(disk.live, s.log, k + 1).value)
  {
    Linearizable(valid, digest, disk, acts, s, k);
    StaleExactly(s.log[k].job.at, digest, content, rev, seen);
    PutRawInstalls(content, rev, s.log[k].job.at, digest);
  }

  // In every run: a raw save, guarded or not, put on disk what was sent.
  lemma SavesWhatWasSent(valid: string -> bool, digest: string -> string, disk: Disk, acts: seq<Action>, s: Sys,
                         k: nat, content: string, rev: string)
    requires Reached(valid, digest, disk, acts, s)
    requires k < |s.log| && s.log[k].job.req == PutRaw(content, rev)
    ensures SavedAs(content, s.log[k].job.text) && Replaces(disk.live, s.log, k + 1) == Some(s.log[k].job.text)
  {
    Linearizable(valid, digest, disk, acts, s, k);
    PutRawInstalls(content, rev, s.log[k].job.at, digest);
  }

  // In every run: a line edit was applied to the lines of the file that it
  // replaced; if it named the text it meant to change, the file lost one copy
  // of that text and gained the new one, and nothing else.
  lemma EditsHitTheirTarget(valid: string -> bool, digest: string -> string, disk: Disk, acts: seq<Action>, s: Sys,
                            k: nat, e: Edit)
    requires Reached(valid, digest, disk, acts, s)
    requires k < |s.log| && s.log[k].job.req == Change(e)
    ensures Load(Replaces(disk.live, s.log, k)).Some?
    ensures var raws := Load(Replaces(disk.live, s.log, k)).value;
            && Apply(e, raws).Accepted?
            && Replaces(disk.live, s.log, k + 1) == Some(Serialize(Apply(e, raws).raws))
            && ((e.UpdateLine? || e.DeleteLine?) && e.was != "" ==>
                  e.was in raws && multiset(Apply(e, raws).raws) ==
                    multiset(raws) - multiset{e.was} + (if e.UpdateLine? then multiset{Written(e)} else multiset{}))
  {
    Linearizable(valid, digest, disk, acts, s, k);
    var raws := Load(s.log[k].job.at.live).value;
    if (e.UpdateLine? || e.DeleteLine?) && e.was != "" {
      GuardedEdit(e, raws);
    }
  }

  // In every run: after an edit the file reloads to the lines in memory, and
  // has the revision computed there, if and only if no line of the replaced
  // file that the edit kept ends in a carriage return once loaded.
  lemma EditsReload(valid: string -> bool, digest: string -> string, disk: Disk, acts: seq<Action>, s: Sys,
                    k: nat, e: Edit)
    requires Reached(valid, digest, disk, acts, s)
    requires k < |s.log| && s.log[k].job.req == Change(e)
    ensures Load(Replaces(disk.live, s.log, k)).Some?
    ensures var raws := Load(Replaces(disk.live, s.log, k)).value;
            && Apply(e, raws).Accepted? && s.log[k].job.text == Serialize(Apply(e, raws).raws)
            && (Lines(s.log[k].job.text) == Apply(e, raws).raws <==> NoneEndsCR(Untouched(e, raws)))
            && (Injective(digest) ==>
                  (Rev(digest, Lines(s.log[k].job.text)) == Rev(digest, Apply(e, raws).raws)
                   <==> NoneEndsCR(Untouched(e, raws))))
    ensures CleanEnds(Replaces(disk.live, s.log, k)) ==>
              NoneEndsCR(Untouched(e, Load(Replaces(disk.live, s.log, k)).value)) && CleanEnds(Some(s.log[k].job.text))
  {
    var file := Replaces(disk.live, s.log, k);
    EditsHitTheirTarget(valid, digest, disk, acts, s, k, e);
    LoadedLines(file);
    EditReloads(e, Load(file).value);
    if Injective(digest) {
      EditKeepsRevision(e, Load(file).value, digest);
    }
    if CleanEnds(file) {
      CleanStays(e, file);
    }
  }

  // No line ends in two carriage returns.
  predicate CleanEnds(file: Option<string>) { file.Some? ==> NoDoubleCR(file.value) }

  lemma CleanStays(e: Edit, file: Option<string>)
    requires Load(file).Some? && CleanEnds(file) && Apply(e, Load(file).value).Accepted?
    ensures NoneEndsCR(Untouched(e, Load(file).value)) && CleanEnds(Some(Serialize(Apply(e, Load(file).value).raws)))
  {
    var raws := Load(file).value;
    if file.Some? {
      CleanLines(file.value);
    }
    LoadedLines(file);
    UntouchedIsFrom(e, raws);
    CleanEdit(e, raws);
  }

  // ---- backups ---------------------------------------------------------------

  // In every run without deletions in which every backup got a name of its
  // own, whatever crashed or failed on the way: every content that was ever
  // replaced is in a backup.
  lemma NothingIsLost(valid: string -> bool, digest: string -> string, disk: Disk, acts: seq<Action>, s: Sys, k: nat)
    requires Reached(valid, digest, disk, acts, s) && NamesUsedOnce(acts)
    requires k < |s.log| && Replaces(disk.live, s.log, k).Some?
    ensures s.log[k].saved in s.disk.backups
    ensures s.disk.backups[s.log[k].saved] == Replaces(disk.live, s.log, k).value
  {
    OwnBackupIsLast(ConsoleEnv(valid, digest), disk, acts, k);
    ReplacedIsKept(valid, digest, disk, acts, s, k);
  }

  // For one replaced content it is enough that the last action to touch the
  // name of its backup was that backup.
  lemma ReplacedIsKept(valid: string -> bool, digest: string -> string, disk: Disk, acts: seq<Action>, s: Sys, k: nat)
    requires Reached(valid, digest, disk, acts, s)
    requires k < |s.log| && Replaces(disk.live, s.log, k).Some? && OwnBackupLast(acts, s.log[k])
    ensures s.log[k].saved in s.disk.backups
    ensures s.disk.backups[s.log[k].saved] == Replaces(disk.live, s.log, k).value
  {
    ConsoleWellBehaved(valid, digest);
    Linearizable(valid, digest, disk, acts, s, k);
    BackupSurvives(ConsoleEnv(valid, digest), disk, acts, k);
  }

  // ---- readers -------------------------------------------------------------

  // In every run: what a reader got is the file as some commit left it, or as
  // it was at first. Nobody sees half of a write.
  lemma NoTornReads(valid: string -> bool, digest: string -> string, disk: Disk, acts: seq<Action>, s: Sys, id: nat)
    returns (j: nat)
    requires Reached(valid, digest, disk, acts, s) && id in s.views
    ensures j <= |s.log| && s.views[id] == Replaces(disk.live, s.log, j)
  {
    ConsoleWellBehaved(valid, digest);
    ViewsAreWhole(ConsoleEnv(valid, digest), disk, acts);
    assert Whole(disk.live, s.log, s.views[id]);
    j :| 0 <= j <= |s.log| && s.views[id] == Replaces(disk.live, s.log, j);
  }
}
