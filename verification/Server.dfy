// The request handlers, one at a time: load a fresh copy, change it, write it
// out, reload. How they interleave is the subject of Protocol.
module Server {
  import opened Text
  import opened ConfText
  import opened ConfEdits
  import opened ConfStore
  import opened ConfWriter
  import opened Requests
  import Upstreams

  // The handlers that read the file, or a backup, before they write.
  predicate StartsFromFile(req: Request) {
    match req
    case Change(e) => Admissible(e)
    case PutRaw(_, rev) => rev != ""
    case Restore(_) => true
    case SwitchUpstreams(_, _) => true
  }

  function StatusOf(req: Request, text: string, result: Result, fault: Fault): int {
    match result
    case Failed => 500
    case Rejected => RejectStatus(req)
    case Ok => if fault.ReloadFails? && Reloads(req) then 500 else FinalStatus(req, Some(text))
  }

  // A plan carried out, for each fault.
  predicate Follows(plan: Plan, req: Request, before: Disk, after: Disk, status: int, name: string, cut: nat,
                    valid: string -> bool, fault: Fault)
  {
    match plan
    case Refuse(s) => status == s && after == before
    case Install(text) =>
      && status == StatusOf(req, text, ResultOf(before, valid(text), fault), fault)
      && after == DiskAfter(before, text, valid(text), name, cut, fault)
  }

  // The outcome of one handler call.
  ghost predicate Handled(req: Request, before: Disk, after: Disk, status: int, stamp: string, cut: nat,
                          valid: string -> bool, digest: string -> string, fault: Fault)
  {
    if fault.OpenFails? && StartsFromFile(req) then status == 500 && after == before
    else Follows(PlanFor(req, before, digest), req, before, after, status, BackupName(stamp), cut, valid, fault)
  }

  // A client error leaves the disk as it was; success installs what was asked.
  lemma StatusMeaning(req: Request, before: Disk, after: Disk, status: int, stamp: string, cut: nat,
                      valid: string -> bool, digest: string -> string, fault: Fault)
    requires Handled(req, before, after, status, stamp, cut, valid, digest, fault)
    ensures status in {200, 400, 409, 422, 500}
    ensures status in {400, 409, 422} ==> after == before
    ensures status == 200 ==> PlanFor(req, before, digest).Install?
                              && after.live == Some(PlanFor(req, before, digest).text)
    ensures after.live != before.live ==>
              PlanFor(req, before, digest).Install? && valid(PlanFor(req, before, digest).text)
              && (before.live.Some? ==> BackupName(stamp) in after.backups
                                        && after.backups[BackupName(stamp)] == before.live.value)
    ensures fault.NoFault? && PlanFor(req, before, digest).Install? && valid(PlanFor(req, before, digest).text) ==>
              after.live == Some(PlanFor(req, before, digest).text)
              && (status == 500 <==> Reloads(req) && Load(after.live).None?)
  {
    if PlanFor(req, before, digest).Install? {
      var text := PlanFor(req, before, digest).text;
      CompletedTrail(before, text, BackupName(stamp), cut, fault);
      if valid(text) {
        AfterTrail(before, text, BackupName(stamp), cut, fault, valid);
      }
    }
  }

  lemma AfterTrail(d: Disk, text: string, name: string, cut: nat, fault: Fault, valid: string -> bool)
    requires valid(text)
    ensures SafePoint(d, text, name, valid, LastDisk(d, Trail(d, text, name, cut, fault)))
  {
    TrailIsSafe(d, text, name, cut, fault, valid);
  }

  // A save answered with 200 left what was sent on disk.
  lemma SavedRaw(content: string, rev: string, before: Disk, after: Disk, stamp: string, cut: nat,
                 valid: string -> bool, digest: string -> string, fault: Fault)
    requires Handled(Requests.PutRaw(content, rev), before, after, 200, stamp, cut, valid, digest, fault)
    ensures after.live.Some? && SavedAs(content, after.live.value)
  {
    StatusMeaning(Requests.PutRaw(content, rev), before, after, 200, stamp, cut, valid, digest, fault);
    PutRawInstalls(content, rev, before, digest);
  }

  // A switch answered with 200 left the rewritten file, with the forwarder
  // alone or with the plain addresses.
  lemma SwitchedFile(encrypted: bool, plain: seq<string>, before: Disk, after: Disk, stamp: string, cut: nat,
                     valid: string -> bool, digest: string -> string, fault: Fault)
    requires Handled(Requests.SwitchUpstreams(encrypted, plain), before, after, 200, stamp, cut, valid, digest, fault)
    ensures Load(before.live).Some?
    ensures after.live == Some(Serialize(Upstreams.Rewritten(Load(before.live).value,
                                         if encrypted then ["127.0.0.1#5053"] else plain)))
  {
    StatusMeaning(Requests.SwitchUpstreams(encrypted, plain), before, after, 200, stamp, cut, valid, digest, fault);
  }

  // A request that starts from the file is answered with 500 when it cannot
  // be read.
  lemma CannotStart(req: Request, d: Disk, stamp: string, cut: nat, valid: string -> bool, digest: string -> string,
                    fault: Fault)
    requires req.SwitchUpstreams? && (fault.OpenFails? || Load(d.live).None?)
    ensures Handled(req, d, d, 500, stamp, cut, valid, digest, fault)
  {
  }

  class Handlers {
    const digest: string -> string
    const writer: Writer

    constructor (writer: Writer, digest: string -> string)
      ensures this.writer == writer && this.digest == digest
    {
      this.writer := writer;
      this.digest := digest;
    }

    method ApplyTo(conf: ConfFile, e: Edit) returns (refused: Option<Why>)
      requires conf.Valid()
      modifies conf, conf.lines
      ensures conf.Valid()
      ensures Reflects(Apply(e, old(conf.raws)), refused, old(conf.raws), conf.raws)
    {
      refused := None;
      match e
      case AddLine(key, value, flag) =>
        if !Writable(key, value, flag) {
          return Some(BadRequest);
        }
        var _ := conf.AddLine(key, value, flag);
      case UpdateLine(idx, was, key, value, flag, raw) =>
        if key == "" {
          refused := conf.UpdateRawLine(idx, was, raw);
          return;
        }
        if !Writable(key, value, flag) {
          return Some(BadRequest);
        }
        refused := conf.UpdateLine(idx, was, key, value, flag);
      case DeleteLine(idx, was) =>
        refused := conf.DeleteLine(idx, was);
      case SetScalar(key, value) =>
        if !ValidKey(key) || !ValidValue(value) {
          return Some(BadRequest);
        }
        conf.SetScalar(key, value);
      case SetFlag(key, on) =>
        if !ValidKey(key) {
          return Some(BadRequest);
        }
        conf.SetFlag(key, on);
    }

    method MutateConf(e: Edit, stamp: string, cut: nat, fault: Fault) returns (status: int)
      modifies writer
      ensures Handled(Change(e), old(writer.disk), writer.disk, status, stamp, cut, writer.valid, digest, fault)
    {
      if !Admissible(e) {
        return 400;
      }
      var conf := LoadConf(writer.disk.live, fault.OpenFails?, digest);
      if conf == null {
        return 500;
      }
      var refused := ApplyTo(conf, e);
      if refused.Some? {
        return Answer(refused.value);
      }
      var text := conf.SerializeText();
      status := Save(Change(e), text, stamp, cut, fault);
    }

    method PutRaw(content: string, rev: string, stamp: string, cut: nat, fault: Fault) returns (status: int)
      modifies writer
      ensures Handled(Requests.PutRaw(content, rev), old(writer.disk), writer.disk, status,
                      stamp, cut, writer.valid, digest, fault)
      ensures status == 200 ==> writer.disk.live.Some? && SavedAs(content, writer.disk.live.value)
    {
      ghost var before := writer.disk;
      var text := Terminated(content);
      if rev != "" {
        var cur := LoadConf(writer.disk.live, fault.OpenFails?, digest);
        if cur == null {
          return 500;
        }
        if cur.rev != rev {
          return 409;
        }
      }
      status := Save(Requests.PutRaw(content, rev), text, stamp, cut, fault);
      if status == 200 {
        SavedRaw(content, rev, before, writer.disk, stamp, cut, writer.valid, digest, fault);
      }
    }

    method RestoreBackup(filename: string, stamp: string, cut: nat, fault: Fault) returns (status: int)
      modifies writer
      ensures Handled(Restore(filename), old(writer.disk), writer.disk, status, stamp, cut, writer.valid, digest, fault)
    {
      var result := writer.RestoreBackup(filename, stamp, cut, fault);
      status := if result.Ok? then 200 else 500;
    }

    method SwitchUpstreams(encrypted: bool, plain: seq<string>, stamp: string, cut: nat, fault: Fault)
      returns (status: int)
      modifies writer
      ensures Handled(Requests.SwitchUpstreams(encrypted, plain), old(writer.disk), writer.disk, status, stamp, cut,
                      writer.valid, digest, fault)
      ensures status == 200 ==>
                Load(old(writer.disk).live).Some?
                && writer.disk.live == Some(Serialize(Upstreams.Rewritten(Load(old(writer.disk).live).value,
                                                      if encrypted then ["127.0.0.1#5053"] else plain)))
    {
      ghost var before := writer.disk;
      var conf := LoadConf(writer.disk.live, fault.OpenFails?, digest);
      if conf == null {
        CannotStart(Requests.SwitchUpstreams(encrypted, plain), writer.disk, stamp, cut, writer.valid, digest, fault);
        return 500;
      }
      var text := Rewrite(conf, encrypted, plain);
      status := Save(Requests.SwitchUpstreams(encrypted, plain), text, stamp, cut, fault);
      if status == 200 {
        SwitchedFile(encrypted, plain, before, writer.disk, stamp, cut, writer.valid, digest, fault);
      }
    }

    method Rewrite(conf: ConfFile, encrypted: bool, plain: seq<string>) returns (text: string)
      requires conf.Valid()
      modifies conf, conf.lines
      ensures text == Switched(old(conf.raws), encrypted, plain)
    {
      Upstreams.RewriteServers(conf, encrypted, plain);
      text := conf.SerializeText();
    }

    method Save(req: Request, text: string, stamp: string, cut: nat, fault: Fault) returns (status: int)
      requires !req.Restore? && PlanFor(req, writer.disk, digest) == Install(text)
      requires !(fault.OpenFails? && StartsFromFile(req))
      modifies writer
      ensures Handled(req, old(writer.disk), writer.disk, status, stamp, cut, writer.valid, digest, fault)
    {
      var result := writer.WriteRaw(text, stamp, cut, fault);
      if result.Rejected? {
        return RejectStatus(req);
      }
      if result.Failed? {
        return 500;
      }
      if req.SwitchUpstreams? {
        return 200;
      }
      var reloaded := LoadConf(writer.disk.live, fault.ReloadFails?, digest);
      status := if reloaded == null then 500 else 200;
    }
  }
}
