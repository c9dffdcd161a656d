// Requests tagged by an agent: the activity record and the write switch.
module Mcp {
  import opened Text

  const RECENT_CAP: nat := 25

  datatype Call = Call(verb: string, path: string, at: nat, blocked: bool)

  // `allowed` is the outcome of requireAuth, `client` the X-MCP-Client header
  // ("" when absent), `body` the decoded switch position, if the body decodes.
  datatype Req = Req(allowed: bool, client: string, verb: string, path: string, at: nat, body: Option<bool>)

  datatype Verdict = Unauthorized | Forbidden | Passed

  predicate Mutating(verb: string) { verb == "POST" || verb == "PUT" || verb == "DELETE" }

  predicate IsWrite(r: Req) {
    Mutating(r.verb) && r.path != "/api/conf/validate" && HasPrefix(r.path, "/api/")
  }

  predicate IsControlPlane(r: Req) {
    Mutating(r.verb) && HasPrefix(r.path, "/api/mcp/")
  }

  predicate SetsSwitch(r: Req) {
    r.verb == "PUT" && r.path == "/api/mcp/writes" && r.body.Some?
  }

  predicate Tagged(r: Req) { r.allowed && r.client != "" }

  // ---- the run as an outside observer tells it ----------------------------

  // The switch is on at first; only operators move it.
  function Switch(rs: seq<Req>): bool {
    if rs == [] then true
    else
      var r := rs[|rs| - 1];
      if r.allowed && r.client == "" && SetsSwitch(r) then r.body.value else Switch(rs[..|rs| - 1])
  }

  // A tagged request is refused when it touches the switch, or when it would
  // change something while the switch is off.
  predicate RefusedNow(switchOn: bool, r: Req) {
    Tagged(r) && (IsControlPlane(r) || (IsWrite(r) && !switchOn))
  }

  // The tagged requests that got past authentication, newest first.
  function Calls(rs: seq<Req>): seq<Call> {
    if rs == [] then []
    else
      var r, before := rs[|rs| - 1], rs[..|rs| - 1];
      if Tagged(r) then [Call(r.verb, r.path, r.at, RefusedNow(Switch(before), r))] + Calls(before)
      else Calls(before)
  }

  function Blocked(cs: seq<Call>): nat {
    if cs == [] then 0 else (if cs[0].blocked then 1 else 0) + Blocked(cs[1..])
  }

  function Newest(cs: seq<Call>): seq<Call> {
    if |cs| <= RECENT_CAP then cs else cs[..RECENT_CAP]
  }

  function LastClient(rs: seq<Req>): string {
    if rs == [] then ""
    else if Tagged(rs[|rs| - 1]) then rs[|rs| - 1].client
    else LastClient(rs[..|rs| - 1])
  }

  datatype Status = Status(client: string, lastSeen: Option<nat>, total: nat, blocked: nat, writesAllowed: bool,
                           recent: seq<Call>)

  // What the console must show after these requests.
  function Expected(rs: seq<Req>): Status {
    var cs := Calls(rs);
    Status(LastClient(rs), if cs == [] then None else Some(cs[0].at), |cs|, Blocked(cs), Switch(rs), Newest(cs))
  }

  class Tracker {
    var client: string
    var lastSeen: Option<nat>
    var total: nat
    var blocked: nat
    var writesOn: bool
    var recent: seq<Call>    // newest first, capped
    ghost var history: seq<Req>  // every request the server has handled

    ghost predicate Valid()
      reads this
    {
      Now() == Expected(history)
    }

    ghost function Now(): Status
      reads this
    {
      Status(client, lastSeen, total, blocked, writesOn, recent)
    }

    constructor ()
      ensures Valid() && history == []
    {
      client, lastSeen, total, blocked, writesOn, recent := "", None, 0, 0, true, [];
      history := [];
    }

    method Record(client: string, verb: string, path: string, blocked: bool, now: nat)
      modifies this`client, this`lastSeen, this`total, this`blocked, this`recent
      ensures this.client == client && lastSeen == Some(now)
      ensures total == old(total) + 1 && this.blocked == old(this.blocked) + (if blocked then 1 else 0)
      ensures recent == Newest([Call(verb, path, now, blocked)] + old(recent))
    {
      this.client := client;
      lastSeen := Some(now);
      total := total + 1;
      if blocked {
        this.blocked := this.blocked + 1;
      }
      recent := [Call(verb, path, now, blocked)] + recent;
      if |recent| > RECENT_CAP {
        recent := recent[..RECENT_CAP];
      }
    }

    method Snapshot() returns (st: Status)
      requires Valid()
      ensures st == Expected(history)
    {
      st := Status(client, lastSeen, total, blocked, writesOn, recent);
    }

    method WritesAllowed() returns (on: bool)
      ensures on == writesOn
    {
      on := writesOn;
    }

    method SetWrites(on: bool)
      modifies this`writesOn
      ensures writesOn == on
    {
      writesOn := on;
    }

    // The middleware with the one handler behind it that moves the switch:
    // no tagged write gets through while the switch is off, no tagged request
    // ever reaches the switch, and only an operator's order moves it.
    method Serve(r: Req) returns (v: Verdict)
      requires Valid()
      modifies this
      ensures Valid() && history == old(history) + [r]
      ensures v == if !r.allowed then Unauthorized
                   else if RefusedNow(Switch(old(history)), r) then Forbidden else Passed
      ensures Tagged(r) && IsWrite(r) && !old(writesOn) ==> v == Forbidden && writesOn == old(writesOn)
      ensures Tagged(r) && IsControlPlane(r) ==> v == Forbidden
      ensures Tagged(r) && !Mutating(r.verb) ==> v == Passed
      ensures writesOn != old(writesOn) ==> r.allowed && r.client == "" && SetsSwitch(r)
      ensures total == old(total) + (if Tagged(r) then 1 else 0)
      ensures blocked == old(blocked) + (if v == Forbidden then 1 else 0)
    {
      ghost var before := history;
      StepExpected(before, r);
      history := before + [r];
      if !r.allowed {
        return Unauthorized;
      }
      if r.client != "" {
        var control := IsControlPlane(r);
        var on := WritesAllowed();
        var refused := control || (IsWrite(r) && !on);
        Record(r.client, r.verb, r.path, refused, r.at);
        if refused {
          return Forbidden;
        }
      }
      if SetsSwitch(r) {
        SwitchIsControlPlane(r);
        SetWrites(r.body.value);
      }
      return Passed;
    }
  }

  lemma SwitchIsControlPlane(r: Req)
    requires SetsSwitch(r)
    ensures IsControlPlane(r) && IsWrite(r)
  {
    assert r.path[..9] == "/api/mcp/" && r.path[..5] == "/api/";
  }

  lemma NewestStep(c: Call, cs: seq<Call>)
    ensures Newest([c] + Newest(cs)) == Newest([c] + cs)
  {
  }

  lemma StepExpected(rs: seq<Req>, r: Req)
    ensures var cs, refused := Calls(rs), RefusedNow(Switch(rs), r);
      Expected(rs + [r]) ==
        if Tagged(r) then
          Status(r.client, Some(r.at), |cs| + 1, Blocked(cs) + (if refused then 1 else 0), Switch(rs),
                 Newest([Call(r.verb, r.path, r.at, refused)] + Newest(cs)))
        else
          Expected(rs).(writesAllowed := if r.allowed && SetsSwitch(r) then r.body.value else Switch(rs))
  {
    var more, cs := rs + [r], Calls(rs);
    assert more[..|more| - 1] == rs;
    if Tagged(r) {
      var c := Call(r.verb, r.path, r.at, RefusedNow(Switch(rs), r));
      assert ([c] + cs)[1..] == cs;
      NewestStep(c, cs);
    }
  }

  // ---- the gate over whole runs -------------------------------------------

  // Operators set the switch; it stays until an operator sets it again.
  lemma {:induction false} SwitchIsLastOrder(rs: seq<Req>, r: Req, after: seq<Req>)
    requires r.allowed && r.client == "" && SetsSwitch(r)
    requires forall i :: 0 <= i < |after| ==> Tagged(after[i]) || !after[i].allowed || !SetsSwitch(after[i])
    ensures Switch(rs + [r] + after) == r.body.value
  {
    var all := rs + [r] + after;
    if after == [] {
      assert all == rs + [r] && all[..|all| - 1] == rs;
    } else {
      assert all[..|all| - 1] == rs + [r] + after[..|after| - 1];
      SwitchIsLastOrder(rs, r, after[..|after| - 1]);
    }
  }
}
