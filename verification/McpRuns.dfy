// Tagged and untagged requests in flight at once. The middleware reads the
// switch, records the call and hands over to the handler in separate steps,
// and other requests may come in between.
module McpRuns {
  import opened Text
  import opened Mcp

  datatype Flight =
    | Judged(r: Req, refused: bool)  // the gate has decided, the call is not recorded yet
    | Cleared(r: Req)                // on its way to the handler
    | Ended(r: Req, v: Verdict)

  // `calls` is every recorded call, newest first; the tracker keeps less.
  datatype Sys = Sys(st: Status, flights: map<nat, Flight>, calls: seq<Call>)

  datatype Event = Enter(id: nat, r: Req) | Record(id: nat) | Handle(id: nat)

  predicate Enabled(s: Sys, e: Event) {
    match e
    case Enter(id, _) => id !in s.flights
    case Record(id) => id in s.flights && s.flights[id].Judged?
    case Handle(id) => id in s.flights && s.flights[id].Cleared?
  }

  function Judge(on: bool, r: Req): Flight {
    if !r.allowed then Ended(r, Unauthorized)
    else if Tagged(r) then Judged(r, RefusedNow(on, r))
    else Cleared(r)
  }

  function Noted(st: Status, r: Req, refused: bool): Status {
    Status(r.client, Some(r.at), st.total + 1, st.blocked + (if refused then 1 else 0), st.writesAllowed,
           Newest([Call(r.verb, r.path, r.at, refused)] + st.recent))
  }

  function Do(s: Sys, e: Event): Sys
    requires Enabled(s, e)
  {
    match e
    case Enter(id, r) => s.(flights := s.flights[id := Judge(s.st.writesAllowed, r)])
    case Record(id) =>
      var r, refused := s.flights[id].r, s.flights[id].refused;
      Sys(Noted(s.st, r, refused),
          s.flights[id := if refused then Ended(r, Forbidden) else Cleared(r)],
          [Call(r.verb, r.path, r.at, refused)] + s.calls)
    case Handle(id) =>
      var r := s.flights[id].r;
      Sys(if SetsSwitch(r) then s.st.(writesAllowed := r.body.value) else s.st,
          s.flights[id := Ended(r, Passed)], s.calls)
  }

  const START := Sys(Status("", None, 0, 0, true, []), map[], [])

  function After(es: seq<Event>): Option<Sys>
    decreases |es|
  {
    if es == [] then Some(START)
    else
      match After(es[..|es| - 1])
      case None => None
      case Some(m) => if Enabled(m, es[|es| - 1]) then Some(Do(m, es[|es| - 1])) else None
  }

  lemma PrefixRuns(es: seq<Event>, n: nat)
    requires n <= |es| && After(es).Some?
    ensures After(es[..n]).Some?
    decreases |es|
  {
    if n == |es| {
      assert es[..n] == es;
    } else {
      PrefixRuns(es[..|es| - 1], n);
      assert es[..|es| - 1][..n] == es[..n];
    }
  }

  // ---- the gate ------------------------------------------------------------

  // What the middleware let through.
  predicate LetThrough(f: Flight) {
    (f.Judged? && !f.refused) || f.Cleared? || (f.Ended? && f.v == Passed)
  }

  predicate TurnedAway(f: Flight) { (f.Judged? && f.refused) || (f.Ended? && f.v == Forbidden) }

  // A verdict on a tagged request is never revised.
  lemma VerdictStands(s: Sys, e: Event, id: nat)
    requires Enabled(s, e) && id in s.flights
    ensures id in Do(s, e).flights && Do(s, e).flights[id].r == s.flights[id].r
    ensures LetThrough(s.flights[id]) ==> LetThrough(Do(s, e).flights[id])
    ensures TurnedAway(s.flights[id]) ==> TurnedAway(Do(s, e).flights[id])
  {
  }

  predicate Verdicted(s: Sys, id: nat, r: Req, through: bool) {
    id in s.flights && s.flights[id].r == r
    && if through then LetThrough(s.flights[id]) else TurnedAway(s.flights[id])
  }

  lemma {:induction false} VerdictAfter(es: seq<Event>, j: nat, through: bool)
    requires After(es).Some? && j < |es| && es[j].Enter? && Tagged(es[j].r)
    requires After(es[..j]).Some?
    requires through <==> !RefusedNow(After(es[..j]).value.st.writesAllowed, es[j].r)
    ensures Verdicted(After(es).value, es[j].id, es[j].r, through)
    decreases |es|
  {
    var before := es[..|es| - 1];
    if j < |before| {
      assert before[..j] == es[..j];
      VerdictAfter(before, j, through);
      VerdictStands(After(before).value, es[|es| - 1], es[j].id);
    }
  }

  // In every run, however requests overlap: a tagged request gets through
  // exactly if it only reads or validates, or changes something outside the
  // control plane and found the switch on when it entered. Otherwise it is
  // refused, for good.
  lemma GateDecidesOnEntry(es: seq<Event>, j: nat)
    requires After(es).Some? && j < |es| && es[j].Enter? && es[j].r.allowed && es[j].r.client != ""
    ensures After(es[..j]).Some? && es[j].id in After(es).value.flights
    ensures LetThrough(After(es).value.flights[es[j].id]) <==>
            || es[j].r.verb !in {"POST", "PUT", "DELETE"}
            || !HasPrefix(es[j].r.path, "/api/")
            || es[j].r.path == "/api/conf/validate"
            || (After(es[..j]).value.st.writesAllowed && !HasPrefix(es[j].r.path, "/api/mcp/"))
    ensures !LetThrough(After(es).value.flights[es[j].id]) ==> TurnedAway(After(es).value.flights[es[j].id])
  {
    PrefixRuns(es, j);
    VerdictAfter(es, j, !RefusedNow(After(es[..j]).value.st.writesAllowed, es[j].r));
    GateInWords(es[j].r, After(es[..j]).value.st.writesAllowed);
  }

  lemma GateInWords(r: Req, on: bool)
    requires r.allowed && r.client != ""
    ensures !RefusedNow(on, r) <==>
            || r.verb !in {"POST", "PUT", "DELETE"}
            || !HasPrefix(r.path, "/api/")
            || r.path == "/api/conf/validate"
            || (on && !HasPrefix(r.path, "/api/mcp/"))
  {
    if HasPrefix(r.path, "/api/mcp/") {
      assert r.path[..5] == "/api/mcp/"[..5] == "/api/";
      assert r.path[5] == 'm' && "/api/conf/validate"[5] == 'c';
    }
  }

  // ---- the switch ----------------------------------------------------------

  predicate OperatorOrder(s: Sys, e: Event) {
    e.Handle? && e.id in s.flights && s.flights[e.id].r.allowed && s.flights[e.id].r.client == ""
    && SetsSwitch(s.flights[e.id].r)
  }

  // Everything past authentication is allowed, and nothing tagged that aims at
  // the switch is on its way to the handler.
  predicate Honest(f: Flight) {
    (!(f.Ended? && f.v == Unauthorized) ==> f.r.allowed)
    && (f.Judged? ==> Tagged(f.r))
    && (Tagged(f.r) && IsControlPlane(f.r) && f.Judged? ==> f.refused)
    && (Tagged(f.r) && IsControlPlane(f.r) ==> !f.Cleared?)
  }

  lemma {:induction false} AllHonest(es: seq<Event>)
    requires After(es).Some?
    ensures forall id :: id in After(es).value.flights ==> Honest(After(es).value.flights[id])
    decreases |es|
  {
    if es != [] {
      AllHonest(es[..|es| - 1]);
    }
  }

  // In every run: the switch is moved by an operator's order alone, to where
  // the order says.
  lemma OnlyOperatorsMoveSwitch(es: seq<Event>, e: Event)
    requires After(es).Some? && Enabled(After(es).value, e)
    ensures var s := After(es).value;
            && (Do(s, e).st.writesAllowed != s.st.writesAllowed ==> OperatorOrder(s, e))
            && (OperatorOrder(s, e) ==> Do(s, e).st.writesAllowed == s.flights[e.id].r.body.value)
            && (OperatorOrder(s, e) ==>
                  s.flights[e.id].r.verb == "PUT" && s.flights[e.id].r.path == "/api/mcp/writes"
                  && s.flights[e.id].r.client == "")
  {
    AllHonest(es);
    var s := After(es).value;
    if e.Handle? && SetsSwitch(s.flights[e.id].r) {
      SwitchIsControlPlane(s.flights[e.id].r);
      assert Honest(s.flights[e.id]);
    }
  }

  // Once switched off, the gate stays shut until an operator's order is
  // handled.
  ghost predicate NoOrders(es: seq<Event>, i: nat, j: nat)
    requires i <= j <= |es|
  {
    forall k :: i <= k < j && After(es[..k]).Some? ==> !OperatorOrder(After(es[..k]).value, es[k])
  }

  lemma {:induction false} StaysOff(es: seq<Event>, i: nat, j: nat)
    requires After(es).Some? && i <= j <= |es| && NoOrders(es, i, j)
    requires After(es[..i]).Some? && !After(es[..i]).value.st.writesAllowed
    ensures After(es[..j]).Some? && !After(es[..j]).value.st.writesAllowed
    decreases j
  {
    PrefixRuns(es, j);
    if i < j {
      StaysOff(es, i, j - 1);
      assert es[..j][..j - 1] == es[..j - 1] && es[..j][j - 1] == es[j - 1];
      OnlyOperatorsMoveSwitch(es[..j - 1], es[j - 1]);
    }
  }

  // So no tagged write that comes after the switch went off gets through.
  lemma ReadOnlyMode(es: seq<Event>, i: nat, j: nat)
    requires After(es).Some? && i <= j < |es| && NoOrders(es, i, j)
    requires After(es[..i]).Some? && !After(es[..i]).value.st.writesAllowed
    requires es[j].Enter? && es[j].r.allowed && es[j].r.client != ""
    requires es[j].r.verb in {"POST", "PUT", "DELETE"} && HasPrefix(es[j].r.path, "/api/")
    requires es[j].r.path != "/api/conf/validate"
    ensures es[j].id in After(es).value.flights && TurnedAway(After(es).value.flights[es[j].id])
  {
    StaysOff(es, i, j);
    GateDecidesOnEntry(es, j);
  }

  // But one that is already past the gate is not called back: it reaches its
  // handler although the switch reads off by then.
  lemma WriteInFlight(w: Req, off: Req) returns (es: seq<Event>)
    requires Tagged(w) && IsWrite(w) && !IsControlPlane(w)
    requires off.allowed && off.client == "" && SetsSwitch(off) && off.body == Some(false)
    ensures |es| == 5 && es[4] == Handle(0) && After(es[..4]).Some? && !After(es[..4]).value.st.writesAllowed
    ensures After(es).Some? && 0 in After(es).value.flights && After(es).value.flights[0] == Ended(w, Passed)
  {
    es := [Enter(0, w), Record(0), Enter(1, off), Handle(1), Handle(0)];
    assert es[..0] == [];
    RunsOn(es, 0);
    RunsOn(es, 1);
    RunsOn(es, 2);
    RunsOn(es, 3);
    RunsOn(es, 4);
    assert es[..5] == es;
  }

  lemma RunsOn(es: seq<Event>, n: nat)
    requires n < |es| && After(es[..n]).Some? && Enabled(After(es[..n]).value, es[n])
    ensures After(es[..n + 1]) == Some(Do(After(es[..n]).value, es[n]))
  {
    assert es[..n + 1][..n] == es[..n];
  }

  // ---- the figures on display ----------------------------------------------

  predicate Shows(s: Sys) {
    && s.st.total == |s.calls| && s.st.blocked == Blocked(s.calls) && s.st.recent == Newest(s.calls)
    && s.st.lastSeen == if s.calls == [] then None else Some(s.calls[0].at)
  }

  predicate Counted(f: Flight) { Tagged(f.r) && !f.Judged? }

  function CountedIds(fs: map<nat, Flight>): set<nat> { set id | id in fs && Counted(fs[id]) }

  function RefusedIds(fs: map<nat, Flight>): set<nat> { set id | id in fs && fs[id].Ended? && fs[id].v == Forbidden }

  predicate Tallied(s: Sys) {
    && |s.calls| == |CountedIds(s.flights)| && Blocked(s.calls) == |RefusedIds(s.flights)|
  }

  lemma RecordStep(s: Sys, id: nat)
    requires Shows(s) && Enabled(s, Record(id))
    ensures Shows(Do(s, Record(id)))
  {
    var r := s.flights[id].r;
    var c := Call(r.verb, r.path, r.at, s.flights[id].refused);
    NewestStep(c, s.calls);
    assert ([c] + s.calls)[1..] == s.calls;
  }

  // Only the flight that moves can enter or leave the two counted sets.
  lemma SameTally(s: Sys, t: Sys, id: nat)
    requires Tallied(s) && t.calls == s.calls && id in t.flights
    requires t.flights == s.flights[id := t.flights[id]]
    requires Counted(t.flights[id]) <==> id in CountedIds(s.flights)
    requires id in RefusedIds(t.flights) <==> id in RefusedIds(s.flights)
    ensures Tallied(t)
  {
    assert CountedIds(t.flights) == CountedIds(s.flights);
    assert RefusedIds(t.flights) == RefusedIds(s.flights);
  }

  lemma RecordTally(s: Sys, id: nat)
    requires Tallied(s) && Enabled(s, Record(id)) && Honest(s.flights[id])
    ensures Tallied(Do(s, Record(id)))
  {
    var t := Do(s, Record(id));
    assert t.calls[1..] == s.calls;
    CountedGrows(s.flights, id, t.flights[id]);
    RefusedGrows(s.flights, id, t.flights[id]);
  }

  lemma CountedGrows(fs: map<nat, Flight>, id: nat, f: Flight)
    requires id in fs && fs[id].Judged? && Counted(f)
    ensures |CountedIds(fs[id := f])| == |CountedIds(fs)| + 1
  {
    assert CountedIds(fs[id := f]) == CountedIds(fs) + {id};
  }

  lemma RefusedGrows(fs: map<nat, Flight>, id: nat, f: Flight)
    requires id in fs && fs[id].Judged?
    ensures |RefusedIds(fs[id := f])| == |RefusedIds(fs)| + (if f.Ended? && f.v == Forbidden then 1 else 0)
  {
    if f.Ended? && f.v == Forbidden {
      assert RefusedIds(fs[id := f]) == RefusedIds(fs) + {id};
    } else {
      assert RefusedIds(fs[id := f]) == RefusedIds(fs);
    }
  }

  // In every run: total and blocked count the tagged requests recorded and
  // those of them refused, and `recent` is the newest 25 of all calls, newest
  // first.
  lemma {:induction false} Accounting(es: seq<Event>)
    requires After(es).Some?
    ensures Shows(After(es).value) && Tallied(After(es).value)
    ensures var s := After(es).value;
            s.st.recent == if |s.calls| <= 25 then s.calls else s.calls[..25]
    decreases |es|
  {
    if es == [] {
      assert CountedIds(START.flights) == {} && RefusedIds(START.flights) == {};
    } else {
      var before, e := es[..|es| - 1], es[|es| - 1];
      var s := After(before).value;
      Accounting(before);
      AllHonest(before);
      if e.Record? {
        RecordStep(s, e.id);
        RecordTally(s, e.id);
      } else {
        SameTally(s, Do(s, e), e.id);
      }
    }
  }

  // ---- one request after the other ------------------------------------------

  // The steps of one request when nothing comes in between.
  function Serial(s: Sys, id: nat, r: Req): Sys
    requires id !in s.flights
  {
    var s1 := Do(s, Enter(id, r));
    var s2 := if Enabled(s1, Record(id)) then Do(s1, Record(id)) else s1;
    if Enabled(s2, Handle(id)) then Do(s2, Handle(id)) else s2
  }

  // They show what Tracker.Serve shows after the same history.
  lemma SerialIsServe(s: Sys, id: nat, r: Req, history: seq<Req>)
    requires id !in s.flights && s.st == Expected(history)
    ensures Serial(s, id, r).st == Expected(history + [r])
    ensures id in Serial(s, id, r).flights
    ensures Serial(s, id, r).flights[id] ==
            Ended(r, if !r.allowed then Unauthorized
                     else if RefusedNow(Switch(history), r) then Forbidden else Passed)
  {
    StepExpected(history, r);
    if SetsSwitch(r) {
      SwitchIsControlPlane(r);
    }
  }
}
