// Whole runs of logins, session checks and logouts, from an empty table and
// with a clock that never goes back.
module AuthRuns {
  import opened Text
  import opened Auth

  datatype Event =
    | Login(now: nat, ip: string, good: bool, sid: Option<string>)
    | Check(now: nat, id: string)
    | Logout(now: nat, id: string)

  ghost predicate Step(s: State, e: Event, t: State) {
    match e
    case Login(now, ip, good, sid) => LoginStep(s, ip, good, now, sid, t)
    case Check(now, id) => CheckStep(s, id, now, t)
    case Logout(_, id) => LogoutStep(s, id, t)
  }

  ghost predicate Run(ss: seq<State>, es: seq<Event>) {
    && |ss| == |es| + 1 && ss[0] == State(map[], map[])
    && (forall i :: 0 <= i < |es| ==> Step(ss[i], es[i], ss[i + 1]))
    && (forall i, j :: 0 <= i < j < |es| ==> es[i].now <= es[j].now)
  }

  // The clock once i events have happened.
  function Clock(es: seq<Event>, i: nat): nat
    requires i <= |es|
  {
    if i == 0 then 0 else es[i - 1].now
  }

  // ---- sessions ----------------------------------------------------------

  // Event i issues the id or accepts it.
  predicate UsedBy(s: State, e: Event, id: string) {
    match e
    case Login(now, ip, good, sid) => !LockedOut(s, ip, now) && good && sid == Some(id)
    case Check(now, c) => c == id && Accepts(s, id, now)
    case Logout(_, _) => false
  }

  // When the id was last issued or accepted among the first i events.
  function LastUse(ss: seq<State>, es: seq<Event>, i: nat, id: string): Option<nat>
    requires |ss| == |es| + 1 && i <= |es|
  {
    if i == 0 then None
    else if UsedBy(ss[i - 1], es[i - 1], id) then Some(es[i - 1].now)
    else LastUse(ss, es, i - 1, id)
  }

  predicate TableOk(ss: seq<State>, es: seq<Event>, i: nat)
    requires |ss| == |es| + 1 && i <= |es|
  {
    && |ss[i].sessions| <= MAX_SESSIONS
    && forall id :: id in ss[i].sessions ==> EntryOk(ss, es, i, id)
  }

  predicate EntryOk(ss: seq<State>, es: seq<Event>, i: nat, id: string)
    requires |ss| == |es| + 1 && i <= |es| && id in ss[i].sessions
  {
    var use := LastUse(ss, es, i, id);
    use.Some? && use.value <= Clock(es, i) && ss[i].sessions[id] == use.value + SESSION_TTL
  }

  lemma StepTable(ss: seq<State>, es: seq<Event>, i: nat)
    requires Run(ss, es) && i < |es| && TableOk(ss, es, i)
    ensures TableOk(ss, es, i + 1)
  {
    var s, e, t := ss[i], es[i], ss[i + 1];
    assert Step(s, e, t);
    assert Clock(es, i) <= e.now;
    forall id | id in t.sessions
      ensures EntryOk(ss, es, i + 1, id)
    {
      if !UsedBy(s, e, id) {
        StepKeepsEntry(s, e, t, id);
        assert EntryOk(ss, es, i, id);
      } else {
        StepSetsEntry(s, e, t, id);
      }
    }
    StepSize(s, e, t);
  }

  lemma StepKeepsEntry(s: State, e: Event, t: State, id: string)
    requires Step(s, e, t) && id in t.sessions && !UsedBy(s, e, id)
    ensures id in s.sessions && t.sessions[id] == s.sessions[id]
  {
  }

  lemma StepSetsEntry(s: State, e: Event, t: State, id: string)
    requires Step(s, e, t) && UsedBy(s, e, id)
    ensures id in t.sessions && t.sessions[id] == e.now + SESSION_TTL
  {
  }

  lemma LoginSize(s: State, ip: string, now: nat, sid: Option<string>, t: State)
    requires LoginStep(s, ip, true, now, sid, t) && !LockedOut(s, ip, now)
    ensures |t.sessions| <= MAX_SESSIONS
  {
    var kept :| Pruned(s.sessions, now, kept)
                && t.sessions == if sid.Some? then kept[sid.value := now + SESSION_TTL] else kept;
    if sid.Some? {
      OneMore(kept, sid.value, now + SESSION_TTL);
    }
  }

  lemma CheckSize(s: State, id: string, now: nat, t: State)
    requires CheckStep(s, id, now, t)
    ensures |t.sessions| <= |s.sessions|
  {
    if Accepts(s, id, now) {
      SameKeys(s.sessions, id, now + SESSION_TTL);
    } else {
      Fewer(s.sessions, {id});
    }
  }

  lemma StepSize(s: State, e: Event, t: State)
    requires Step(s, e, t) && |s.sessions| <= MAX_SESSIONS
    ensures |t.sessions| <= MAX_SESSIONS
  {
    match e
    case Login(now, ip, good, sid) =>
      if !LockedOut(s, ip, now) && good {
        LoginSize(s, ip, now, sid, t);
      }
    case Check(now, id) => CheckSize(s, id, now, t);
    case Logout(_, id) => Fewer(s.sessions, {id});
  }

  // In every run the table holds at most 100 ids, and each expires exactly one
  // lifetime after it was last used.
  lemma {:induction false} SessionTable(ss: seq<State>, es: seq<Event>, i: nat)
    requires Run(ss, es) && i <= |es|
    ensures TableOk(ss, es, i) && |ss[i].sessions| <= 100
    ensures forall id :: id in ss[i].sessions ==>
              LastUse(ss, es, i, id).Some?
              && ss[i].sessions[id] == LastUse(ss, es, i, id).value + 30 * 24 * 3600 * 1_000_000_000
  {
    if i > 0 {
      SessionTable(ss, es, i - 1);
      StepTable(ss, es, i - 1);
    }
    forall id | id in ss[i].sessions
      ensures EntryOk(ss, es, i, id)
    {
    }
  }

  // A check of an id in the table succeeds exactly within a lifetime of its
  // last use.
  lemma IdleTimeout(ss: seq<State>, es: seq<Event>, i: nat, id: string, now: nat)
    requires Run(ss, es) && i <= |es| && id != "" && id in ss[i].sessions
    ensures LastUse(ss, es, i, id).Some?
    ensures Accepts(ss[i], id, now) <==> now <= LastUse(ss, es, i, id).value + 30 * 24 * 3600 * 1_000_000_000
  {
    SessionTable(ss, es, i);
    assert EntryOk(ss, es, i, id);
  }

  predicate UsedNoEarlier(ss: seq<State>, es: seq<Event>, i: nat, o: string, id: string)
    requires |ss| == |es| + 1 && i <= |es|
  {
    && o in ss[i].sessions
    && LastUse(ss, es, i, o).Some? && LastUse(ss, es, i, id).Some?
    && LastUse(ss, es, i, id).value <= LastUse(ss, es, i, o).value
  }

  // Each of these ids was last used no earlier than `id`.
  predicate UsedSince(ss: seq<State>, es: seq<Event>, i: nat, others: set<string>, id: string)
    requires |ss| == |es| + 1 && i <= |es|
  {
    forall o :: o in others ==> UsedNoEarlier(ss, es, i, o, id)
  }

  // An unexpired session that disappears without a logout was evicted by a
  // login, and 99 other live sessions had been used at least as recently.
  lemma EvictsLeastRecentlyUsed(ss: seq<State>, es: seq<Event>, i: nat, id: string) returns (others: set<string>)
    requires Run(ss, es) && i < |es|
    requires id in ss[i].sessions && es[i].now <= ss[i].sessions[id]
    requires id !in ss[i + 1].sessions && es[i] != Logout(es[i].now, id)
    ensures es[i].Login?
    ensures |others| == 99 && id !in others && UsedSince(ss, es, i, others, id)
    ensures forall o :: o in others ==> o in ss[i].sessions && es[i].now <= ss[i].sessions[o]
    ensures others <= ss[i + 1].sessions.Keys
  {
    assert Step(ss[i], es[i], ss[i + 1]);
    SessionTable(ss, es, i);
    var kept := EvictedByLogin(ss[i], es[i], ss[i + 1], id);
    others := kept.Keys;
    forall o | o in others
      ensures UsedNoEarlier(ss, es, i, o, id)
    {
      YoungerUse(ss, es, i, o, id);
    }
  }

  // The login that drops an unexpired id, and what it kept.
  lemma EvictedByLogin(s: State, e: Event, t: State, id: string) returns (kept: Sessions)
    requires Step(s, e, t) && id in s.sessions && id !in t.sessions
    requires e.now <= s.sessions[id] && e != Logout(e.now, id)
    ensures e.Login? && |kept| == MAX_SESSIONS - 1 && id !in kept && kept.Keys <= t.sessions.Keys
    ensures forall o :: o in kept ==>
              o in s.sessions && e.now <= s.sessions[o] && s.sessions[id] <= s.sessions[o]
  {
    kept :| Pruned(s.sessions, e.now, kept)
            && t.sessions == if e.sid.Some? then kept[e.sid.value := e.now + SESSION_TTL] else kept;
    KeptIsYounger(s.sessions, e.now, kept, id);
  }

  lemma KeptIsYounger(before: Sessions, now: nat, kept: Sessions, id: string)
    requires Pruned(before, now, kept) && id in before && id !in kept && now <= before[id]
    ensures |kept| == MAX_SESSIONS - 1
    ensures forall o :: o in kept ==> o in before && now <= before[o] && before[id] <= before[o]
  {
  }

  lemma YoungerUse(ss: seq<State>, es: seq<Event>, i: nat, o: string, id: string)
    requires |ss| == |es| + 1 && i <= |es| && TableOk(ss, es, i)
    requires id in ss[i].sessions && o in ss[i].sessions && ss[i].sessions[id] <= ss[i].sessions[o]
    ensures UsedNoEarlier(ss, es, i, o, id)
  {
    assert EntryOk(ss, es, i, id) && EntryOk(ss, es, i, o);
  }

  // ---- logging out -------------------------------------------------------

  // A logout takes exactly its own id out and touches nothing else.
  lemma LogoutEnds(ss: seq<State>, es: seq<Event>, i: nat, id: string)
    requires Run(ss, es) && i < |es| && es[i] == Logout(es[i].now, id)
    ensures id !in ss[i + 1].sessions && ss[i + 1].fails == ss[i].fails
    ensures forall o :: o != id ==> (o in ss[i + 1].sessions <==> o in ss[i].sessions)
    ensures forall o :: o in ss[i + 1].sessions ==> ss[i + 1].sessions[o] == ss[i].sessions[o]
  {
    assert Step(ss[i], es[i], ss[i + 1]);
  }

  // A check keeps an unexpired id for another thirty days and takes an expired
  // one out; the empty id is never accepted, and no other id is touched.
  lemma CheckEnds(ss: seq<State>, es: seq<Event>, i: nat, id: string)
    requires Run(ss, es) && i < |es| && es[i] == Check(es[i].now, id)
    ensures Accepts(ss[i], id, es[i].now) <==> id != "" && id in ss[i + 1].sessions
    ensures id != "" && id in ss[i + 1].sessions ==>
              ss[i + 1].sessions[id] == es[i].now + 30 * 24 * 3600 * 1_000_000_000
    ensures forall o :: o != id ==> (o in ss[i + 1].sessions <==> o in ss[i].sessions)
    ensures forall o :: o != id && o in ss[i].sessions ==> ss[i + 1].sessions[o] == ss[i].sessions[o]
    ensures ss[i + 1].fails == ss[i].fails
  {
    assert Step(ss[i], es[i], ss[i + 1]);
  }

  predicate Issues(e: Event, id: string) { e.Login? && e.sid == Some(id) }

  lemma OnlyLoginsIssue(s: State, e: Event, t: State, id: string)
    requires Step(s, e, t) && id !in s.sessions && !Issues(e, id)
    ensures id !in t.sessions
  {
  }

  // Afterwards no check accepts the id, at any time, until a login issues it
  // again.
  lemma {:induction false} LoggedOut(ss: seq<State>, es: seq<Event>, i: nat, j: nat, id: string, now: nat)
    requires Run(ss, es) && i < j <= |es| && es[i] == Logout(es[i].now, id)
    requires forall k :: i < k < j ==> !Issues(es[k], id)
    ensures id !in ss[j].sessions && !Accepts(ss[j], id, now)
    decreases j
  {
    if j == i + 1 {
      LogoutEnds(ss, es, i, id);
    } else {
      LoggedOut(ss, es, i, j - 1, id, now);
      assert Step(ss[j - 1], es[j - 1], ss[j - 1 + 1]);
      OnlyLoginsIssue(ss[j - 1], es[j - 1], ss[j], id);
    }
  }

  // An id that no login ever issued is never accepted.
  lemma {:induction false} NeverIssued(ss: seq<State>, es: seq<Event>, j: nat, id: string, now: nat)
    requires Run(ss, es) && j <= |es| && forall k :: 0 <= k < j ==> !Issues(es[k], id)
    ensures id !in ss[j].sessions && !Accepts(ss[j], id, now)
    decreases j
  {
    if j > 0 {
      NeverIssued(ss, es, j - 1, id, now);
      assert Step(ss[j - 1], es[j - 1], ss[j - 1 + 1]);
      OnlyLoginsIssue(ss[j - 1], es[j - 1], ss[j], id);
    }
  }

  // ---- throttle ----------------------------------------------------------

  // Times of the wrong passwords from one address that were evaluated since
  // its last success.
  function WrongTimes(ss: seq<State>, es: seq<Event>, i: nat, ip: string): seq<nat>
    requires |ss| == |es| + 1 && i <= |es|
  {
    if i == 0 then [] else TimesAfter(ss[i - 1], es[i - 1], ip, WrongTimes(ss, es, i - 1, ip))
  }

  function TimesAfter(s: State, e: Event, ip: string, before: seq<nat>): seq<nat> {
    if !e.Login? || e.ip != ip || LockedOut(s, ip, e.now) then before
    else if e.good then []
    else before + [e.now]
  }

  // The failure that completed the last full round before position k.
  function RoundEnd(k: nat): int { k - k % LOGIN_MAX_FAILS - 1 }

  predicate Spaced(ts: seq<nat>) {
    && (forall j, k :: 0 <= j < k < |ts| ==> ts[j] <= ts[k])
    && (forall k :: LOGIN_MAX_FAILS <= k < |ts| ==> ts[k] >= ts[RoundEnd(k)] + LOGIN_LOCKOUT)
  }

  predicate ThrottleOk(st: Fail, ts: seq<nat>, now: nat) {
    && Spaced(ts)
    && (forall k :: 0 <= k < |ts| ==> ts[k] <= now)
    && st.count == |ts| % LOGIN_MAX_FAILS
    && st.lockedUntil == if |ts| < LOGIN_MAX_FAILS then 0 else ts[RoundEnd(|ts|)] + LOGIN_LOCKOUT
  }

  lemma WrongPassword(st: Fail, ts: seq<nat>, last: nat, now: nat)
    requires ThrottleOk(st, ts, last) && last <= now && st.lockedUntil <= now
    ensures ThrottleOk(Failed(st, now), ts + [now], now)
  {
    RoundStep(|ts|);
    SpacedMore(ts, now);
    if |ts| + 1 >= LOGIN_MAX_FAILS {
      RoundBounds(|ts| + 1);
    }
  }

  lemma SpacedMore(ts: seq<nat>, now: nat)
    requires Spaced(ts) && forall k :: 0 <= k < |ts| ==> ts[k] <= now
    requires |ts| >= LOGIN_MAX_FAILS ==> now >= ts[RoundEnd(|ts|)] + LOGIN_LOCKOUT
    ensures Spaced(ts + [now])
  {
    var more := ts + [now];
    forall k | LOGIN_MAX_FAILS <= k < |more|
      ensures more[k] >= more[RoundEnd(k)] + LOGIN_LOCKOUT
    {
      RoundBounds(k);
      assert more[RoundEnd(k)] == ts[RoundEnd(k)];
    }
  }

  lemma RoundBounds(k: nat)
    requires k >= LOGIN_MAX_FAILS
    ensures 0 <= RoundEnd(k) < k && RoundEnd(k) / LOGIN_MAX_FAILS == k / LOGIN_MAX_FAILS - 1
  {
  }

  lemma RoundStep(n: nat)
    ensures (n + 1) % LOGIN_MAX_FAILS ==
            if n % LOGIN_MAX_FAILS == LOGIN_MAX_FAILS - 1 then 0 else n % LOGIN_MAX_FAILS + 1
    ensures RoundEnd(n + 1) == if n % LOGIN_MAX_FAILS == LOGIN_MAX_FAILS - 1 then n else RoundEnd(n)
  {
  }

  lemma ThrottleStep(s: State, e: Event, t: State, ip: string, ts: seq<nat>, last: nat)
    requires Step(s, e, t) && last <= e.now && ThrottleOk(FailOf(s.fails, ip), ts, last)
    ensures ThrottleOk(FailOf(t.fails, ip), TimesAfter(s, e, ip, ts), e.now)
  {
    if e.Login? && e.ip == ip && !LockedOut(s, ip, e.now) && !e.good {
      WrongPassword(FailOf(s.fails, ip), ts, last, e.now);
    } else {
      OtherAddress(s, e, t, ip);
    }
  }

  lemma {:induction false} ThrottleRecord(ss: seq<State>, es: seq<Event>, i: nat, ip: string)
    requires Run(ss, es) && i <= |es|
    ensures ThrottleOk(FailOf(ss[i].fails, ip), WrongTimes(ss, es, i, ip), Clock(es, i))
  {
    if i > 0 {
      ThrottleRecord(ss, es, i - 1, ip);
      assert Step(ss[i - 1], es[i - 1], ss[i - 1 + 1]);
      ThrottleStep(ss[i - 1], es[i - 1], ss[i], ip, WrongTimes(ss, es, i - 1, ip), Clock(es, i - 1));
    }
  }

  // Only an evaluated attempt from the address itself changes its record: an
  // attempt from elsewhere, or inside the lock window, changes nothing.
  lemma OtherAddress(s: State, e: Event, t: State, ip: string)
    requires Step(s, e, t)
    requires !(e.Login? && e.ip == ip && !LockedOut(s, ip, e.now) && !e.good)
    ensures FailOf(t.fails, ip) ==
            if e.Login? && e.ip == ip && !LockedOut(s, ip, e.now) then Fail(0, 0) else FailOf(s.fails, ip)
    ensures e.Login? && LockedOut(s, e.ip, e.now) ==> t == s
  {
  }

  lemma {:induction false} RoundsTakeTime(ts: seq<nat>, f: nat)
    requires Spaced(ts) && f < |ts|
    ensures ts[f] >= ts[0] + LOGIN_LOCKOUT * (f / LOGIN_MAX_FAILS)
  {
    if f >= LOGIN_MAX_FAILS {
      RoundBounds(f);
      RoundsTakeTime(ts, RoundEnd(f));
      Distribute(f / LOGIN_MAX_FAILS);
    }
  }

  lemma Distribute(q: nat)
    requires q > 0
    ensures LOGIN_LOCKOUT * q == LOGIN_LOCKOUT * (q - 1) + LOGIN_LOCKOUT
  {
  }

  // In every run, however addresses interleave: counting from 0, the f-th
  // wrong password evaluated for an address since its last success comes at
  // least a minute later than the first for every five before it, and the
  // stored count stays below five.
  lemma ThrottleBound(ss: seq<State>, es: seq<Event>, i: nat, ip: string, f: nat)
    requires Run(ss, es) && i <= |es|
    ensures FailOf(ss[i].fails, ip).count < 5
    ensures f < |WrongTimes(ss, es, i, ip)| ==>
              WrongTimes(ss, es, i, ip)[f] >= WrongTimes(ss, es, i, ip)[0] + 60 * 1_000_000_000 * (f / 5)
  {
    ThrottleRecord(ss, es, i, ip);
    if f < |WrongTimes(ss, es, i, ip)| {
      RoundsTakeTime(WrongTimes(ss, es, i, ip), f);
    }
  }

  // The last failure of the last full round of five.
  function LastRound(ts: seq<nat>): nat
    requires |ts| >= 5
  {
    ts[|ts| - |ts| % 5 - 1]
  }

  // In every run: the right password opens a session exactly when fewer than
  // five wrong ones were counted since the last success, or the last round of
  // five ended at least a minute before.
  lemma RightPassword(ss: seq<State>, es: seq<Event>, i: nat, ip: string, id: string)
    requires Run(ss, es) && i < |es| && es[i] == Login(es[i].now, ip, true, Some(id)) && id !in ss[i].sessions
    ensures var ts := WrongTimes(ss, es, i, ip);
            id in ss[i + 1].sessions <==> |ts| < 5 || es[i].now >= LastRound(ts) + 60 * 1_000_000_000
  {
    assert Step(ss[i], es[i], ss[i + 1]);
    ThrottleRecord(ss, es, i, ip);
    LockEnds(FailOf(ss[i].fails, ip), WrongTimes(ss, es, i, ip), Clock(es, i), es[i].now);
    OpensExactly(ss[i], ss[i + 1], ip, es[i].now, id);
  }

  lemma LockEnds(st: Fail, ts: seq<nat>, last: nat, now: nat)
    requires ThrottleOk(st, ts, last)
    ensures now >= st.lockedUntil <==> |ts| < 5 || now >= LastRound(ts) + 60 * 1_000_000_000
  {
    if |ts| >= 5 {
      RoundBounds(|ts|);
    }
  }

  lemma OpensExactly(s: State, t: State, ip: string, now: nat, id: string)
    requires LoginStep(s, ip, true, now, Some(id), t) && id !in s.sessions
    ensures id in t.sessions <==> now >= FailOf(s.fails, ip).lockedUntil
  {
  }

  // A wrong password, or any attempt in the lock window, opens nothing.
  lemma WrongOpensNothing(ss: seq<State>, es: seq<Event>, i: nat)
    requires Run(ss, es) && i < |es| && es[i].Login? && (!es[i].good || LockedOut(ss[i], es[i].ip, es[i].now))
    ensures ss[i + 1].sessions == ss[i].sessions
  {
    assert Step(ss[i], es[i], ss[i + 1]);
  }
}
