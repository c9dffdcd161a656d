// The mutating requests of the console, and what each one asks to be written
// given the file as it stands.
module Requests {
  import opened Text
  import opened ConfText
  import opened Filtering
  import opened ConfEdits
  import opened ConfWriter
  import Upstreams

  datatype Edit =
    | AddLine(key: string, value: string, flag: bool)
    | UpdateLine(idx: int, was: string, key: string, value: string, flag: bool, raw: string)
    | DeleteLine(idx: int, was: string)
    | SetScalar(key: string, value: string)
    | SetFlag(key: string, on: bool)

  datatype Request =
    | Change(edit: Edit)
    | PutRaw(content: string, rev: string)
    | Restore(filename: string)
    | SwitchUpstreams(encrypted: bool, plain: seq<string>)  // with the plain addresses of the provider

  datatype Plan = Refuse(status: int) | Install(text: string)

  predicate Writable(key: string, value: string, flag: bool) {
    ValidKey(key) && ValidValue(value) && (flag || !Blank(value))
  }

  function Answer(why: Why): int { if why.Conflict? then 409 else 400 }

  // What a handler checks before it takes the lock.
  predicate Admissible(e: Edit) {
    match e
    case AddLine(key, value, flag) => Writable(key, value, flag)
    case SetScalar(key, value) => ValidKey(key) && ValidValue(value)
    case SetFlag(key, _) => ValidKey(key)
    case UpdateLine(_, _, _, _, _, _) => true
    case DeleteLine(_, _) => true
  }

  // The closure each handler hands to mutateConf, with its own checks.
  function Apply(e: Edit, raws: seq<string>): Edited {
    match e
    case AddLine(key, value, flag) =>
      if Writable(key, value, flag) then Accepted(Added(raws, key, value, flag)) else Refused(BadRequest)
    case UpdateLine(idx, was, key, value, flag, raw) =>
      if key == "" then UpdatedRaw(raws, idx, was, raw)
      else if Writable(key, value, flag) then Updated(raws, idx, was, key, value, flag)
      else Refused(BadRequest)
    case DeleteLine(idx, was) => Deleted(raws, idx, was)
    case SetScalar(key, value) =>
      if ValidKey(key) && ValidValue(value) then Accepted(WithScalar(raws, key, value)) else Refused(BadRequest)
    case SetFlag(key, on) =>
      if ValidKey(key) then Accepted(WithFlag(raws, key, on)) else Refused(BadRequest)
  }

  // The text the edit writes into the file, where it writes one.
  function Written(e: Edit): string {
    match e
    case AddLine(key, value, flag) => RenderLine(key, value, flag)
    case UpdateLine(_, _, key, value, flag, raw) => if key == "" then raw else RenderLine(key, value, flag)
    case DeleteLine(_, _) => ""
    case SetScalar(key, value) => RenderLine(key, value, false)
    case SetFlag(key, _) => key
  }

  function Terminated(content: string): string {
    if content != "" && !HasSuffix(content, "\n") then content + "\n" else content
  }

  // What a raw save puts on disk for the content it was sent: the content
  // itself, with a newline behind it only where one is missing.
  predicate SavedAs(content: string, text: string) {
    && NewlineTerminated(text) && content <= text && |text| <= |content| + 1
    && (NewlineTerminated(content) ==> text == content)
  }

  lemma TerminatedSaves(content: string)
    ensures SavedAs(content, Terminated(content))
  {
    if content != "" {
      EndsWithNewline(content);
    }
  }

  lemma EndsWithNewline(s: string)
    requires s != ""
    ensures HasSuffix(s, "\n") <==> s[|s| - 1] == '\n'
  {
    assert s[|s| - 1..] == [s[|s| - 1]];
  }

  // Nothing but the content that was sent is installed by a raw save.
  lemma PutRawInstalls(content: string, rev: string, d: Disk, digest: string -> string)
    requires PlanFor(PutRaw(content, rev), d, digest).Install?
    ensures SavedAs(content, PlanFor(PutRaw(content, rev), d, digest).text)
  {
    RawPlan(content, rev, d, digest);
    TerminatedSaves(content);
  }

  lemma RawPlan(content: string, rev: string, d: Disk, digest: string -> string)
    requires PlanFor(PutRaw(content, rev), d, digest).Install?
    ensures PlanFor(PutRaw(content, rev), d, digest).text == Terminated(content)
  {
  }

  function PlanFor(req: Request, d: Disk, digest: string -> string): Plan {
    match req
    case Change(e) =>
      if !Admissible(e) then Refuse(400)
      else (match Load(d.live)
            case None => Refuse(500)
            case Some(raws) =>
              match Apply(e, raws)
              case Refused(why) => Refuse(Answer(why))
              case Accepted(n) => Install(Serialize(n)))
    case PutRaw(content, rev) =>
      if rev == "" then Install(Terminated(content))
      else (match Load(d.live)
            case None => Refuse(500)
            case Some(raws) => if Rev(digest, raws) != rev then Refuse(409) else Install(Terminated(content)))
    case Restore(filename) =>
      (match FindBackup(d, filename)
       case None => Refuse(500)
       case Some(text) => Install(text))
    case SwitchUpstreams(encrypted, plain) =>
      (match Load(d.live)
       case None => Refuse(500)
       case Some(raws) => Install(Switched(raws, encrypted, plain)))
  }

  function Switched(raws: seq<string>, encrypted: bool, plain: seq<string>): string {
    Serialize(Upstreams.Rewritten(raws, Upstreams.Chosen(encrypted, plain)))
  }

  // A refusal by dnsmasq --test is told apart only where the handler looks.
  function RejectStatus(req: Request): int {
    if Reloads(req) then 422 else 500
  }

  // After the rename the handlers of edits and raw saves reload the file, and
  // report an error if it has become unreadable.
  predicate Reloads(req: Request) { req.Change? || req.PutRaw? }

  function FinalStatus(req: Request, live: Option<string>): int {
    if Reloads(req) && Load(live).None? then 500 else 200
  }

  // ---- what an accepted edit can put in the file ---------------------------

  lemma RenderedStable(key: string, value: string, flag: bool)
    requires ValidKey(key) && (flag || ValidValue(value))
    ensures '\n' !in RenderLine(key, value, flag) && '\r' !in RenderLine(key, value, flag)
  {
    assert '\n' !in key && '\r' !in key;
  }

  ghost predicate FromOrWritten(n: seq<string>, raws: seq<string>, line: string) {
    forall l :: l in n ==> l in raws || l == line
  }

  predicate OneLine(line: string) { '\n' !in line && '\r' !in line }

  // Every line of the result was there before or is the one line being
  // written, and that line holds no line break.
  lemma EditOrigin(e: Edit, raws: seq<string>)
    requires Apply(e, raws).Accepted?
    ensures FromOrWritten(Apply(e, raws).raws, raws, Written(e)) && OneLine(Written(e))
  {
    match e
    case AddLine(key, value, flag) =>
      RenderedStable(key, value, flag);
      InsertedFrom(raws, AddedAt(raws, key), Written(e));
    case UpdateLine(idx, was, key, value, flag, raw) =>
      if key != "" {
        RenderedStable(key, value, flag);
      }
      UpdatedFrom(raws, idx, Written(e));
    case DeleteLine(idx, was) =>
      DeletedFrom(raws, idx);
    case SetScalar(key, value) =>
      RenderedStable(key, value, false);
      ScalarFrom(raws, key, value);
    case SetFlag(key, on) =>
      RenderedStable(key, "", true);
      DropSubset(raws, Has(key));
  }

  lemma InsertedFrom(raws: seq<string>, at: nat, line: string)
    requires at <= |raws|
    ensures FromOrWritten(InsertAt(raws, at, line), raws, line)
  {
  }

  lemma UpdatedFrom(raws: seq<string>, idx: nat, line: string)
    requires idx < |raws|
    ensures FromOrWritten(raws[idx := line], raws, line)
  {
  }

  lemma DeletedFrom(raws: seq<string>, idx: nat)
    requires idx < |raws|
    ensures FromOrWritten(raws[..idx] + raws[idx + 1..], raws, "")
  {
  }

  lemma ScalarFrom(raws: seq<string>, key: string, value: string)
    ensures FromOrWritten(WithScalar(raws, key, value), raws, RenderLine(key, value, false))
  {
    DropSubset(raws, Has(key));
    FirstSubset(raws, Has(key));
  }

  // A guarded line edit trades exactly one copy of the text it names.
  lemma GuardedEdit(e: Edit, raws: seq<string>)
    requires (e.UpdateLine? || e.DeleteLine?) && e.was != ""
    requires Apply(e, raws).Accepted?
    ensures e.was in raws
    ensures multiset(Apply(e, raws).raws) ==
            multiset(raws) - multiset{e.was} + (if e.UpdateLine? then multiset{Written(e)} else multiset{})
  {
    if e.UpdateLine? {
      UpdateShape(e, raws);
      GuardedReplace(raws, e.idx, e.was, Written(e));
    } else {
      DeleteShape(e, raws);
      GuardedDelete(raws, e.idx, e.was);
    }
  }

  // The text of every line an edit writes: a directive as key=value or the
  // bare key, or in a raw edit the text that was sent.
  lemma WrittenText(e: Edit)
    ensures e.AddLine? ==> Written(e) == if e.flag then e.key else e.key + "=" + e.value
    ensures e.UpdateLine? ==>
              Written(e) == if e.key == "" then e.raw else if e.flag then e.key else e.key + "=" + e.value
    ensures e.SetScalar? ==> Written(e) == e.key + "=" + e.value
    ensures e.SetFlag? ==> Written(e) == e.key
  {
  }

  lemma UpdateShape(e: Edit, raws: seq<string>)
    requires e.UpdateLine? && Apply(e, raws).Accepted?
    ensures Exists(raws, e.idx) && !GuardFails(raws, e.idx, e.was)
    ensures Apply(e, raws).raws == raws[e.idx := Written(e)]
  {
  }

  lemma DeleteShape(e: Edit, raws: seq<string>)
    requires e.DeleteLine? && Apply(e, raws).Accepted?
    ensures Exists(raws, e.idx) && !GuardFails(raws, e.idx, e.was)
    ensures Apply(e, raws).raws == raws[..e.idx] + raws[e.idx + 1..]
  {
  }
}
