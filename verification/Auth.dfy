// Login sessions and the login throttle. Time is counted in nanoseconds from
// Go's zero time, so that 0 stands for a lock that was never set.
module Auth {
  import opened Text

  const SECOND: nat := 1_000_000_000
  const SESSION_TTL: nat := 30 * 24 * 3600 * SECOND
  const LOGIN_MAX_FAILS: nat := 5
  const LOGIN_LOCKOUT: nat := 60 * SECOND
  const MAX_SESSIONS: nat := 100

  datatype Fail = Fail(count: nat, lockedUntil: nat)

  type Sessions = map<string, nat>  // session id to expiry

  // The record of an address, or a blank one.
  function FailOf(fails: map<string, Fail>, ip: string): Fail {
    if ip in fails then fails[ip] else Fail(0, 0)
  }

  function Failed(st: Fail, now: nat): Fail {
    if st.count + 1 >= LOGIN_MAX_FAILS then Fail(0, now + LOGIN_LOCKOUT) else Fail(st.count + 1, st.lockedUntil)
  }

  // ---- pruning -----------------------------------------------------------

  predicate SubMap(a: Sessions, b: Sessions) {
    forall k :: k in a ==> k in b && a[k] == b[k]
  }

  // No unexpired session is older than those that stay.
  predicate OlderThanKept(before: Sessions, now: nat, after: Sessions) {
    forall k, l :: k in before && k !in after && now <= before[k] && l in after ==> before[k] <= after[l]
  }

  // What pruneLocked may leave, whichever session it picks among equally old
  // ones: nothing expired, room for one more, and evictions only of the
  // oldest, stopping as soon as there is room.
  predicate Pruned(before: Sessions, now: nat, after: Sessions) {
    && SubMap(after, before)
    && (forall k :: k in after ==> now <= after[k])
    && |after| < MAX_SESSIONS
    && OlderThanKept(before, now, after)
    && ((exists k :: k in before && k !in after && now <= before[k]) ==> |after| == MAX_SESSIONS - 1)
  }

  predicate ExpiriesBelow(s: Sessions, limit: nat) {
    forall k :: k in s ==> s[k] <= limit
  }

  // ---- what each operation does to the two tables -------------------------

  datatype State = State(sessions: Sessions, fails: map<string, Fail>)

  predicate LockedOut(s: State, ip: string, now: nat) {
    now < FailOf(s.fails, ip).lockedUntil
  }

  // `sid` is the random session id; None when the generator fails.
  ghost predicate LoginStep(s: State, ip: string, good: bool, now: nat, sid: Option<string>, t: State) {
    if LockedOut(s, ip, now) then t == s
    else if !good then t == s.(fails := s.fails[ip := Failed(FailOf(s.fails, ip), now)])
    else
      && t.fails == s.fails - {ip}
      && exists kept :: Pruned(s.sessions, now, kept)
           && t.sessions == if sid.Some? then kept[sid.value := now + SESSION_TTL] else kept
  }

  predicate Accepts(s: State, id: string, now: nat) {
    id != "" && id in s.sessions && now <= s.sessions[id]
  }

  predicate CheckStep(s: State, id: string, now: nat, t: State) {
    if id == "" then t == s
    else if Accepts(s, id, now) then t == s.(sessions := s.sessions[id := now + SESSION_TTL])
    else t == s.(sessions := s.sessions - {id})
  }

  predicate LogoutStep(s: State, id: string, t: State) {
    t == s.(sessions := s.sessions - {id})
  }

  class AuthManager {
    const password: string  // compared through its hash, here directly
    var sessions: Sessions
    var fails: map<string, Fail>
    ghost var clock: nat    // the last time any operation read

    // Every operation keeps expiries within a lifetime of the clock. Without
    // this the eviction loop need not end.
    ghost predicate Valid()
      reads this
    {
      ExpiriesBelow(sessions, clock + SESSION_TTL) && |sessions| <= MAX_SESSIONS
    }

    ghost function Tables(): State
      reads this
    {
      State(sessions, fails)
    }

    constructor (password: string)
      ensures Valid() && sessions == map[] && fails == map[] && clock == 0 && this.password == password
    {
      this.password := password;
      sessions := map[];
      fails := map[];
      clock := 0;
    }

    method Login(attempt: string, ip: string, now: nat, sid: Option<string>)
      returns (issued: Option<string>, wait: nat)
      requires Valid() && clock <= now
      modifies this
      ensures Valid() && clock == now
      ensures LoginStep(old(Tables()), ip, attempt == password, now, sid, Tables())
      ensures wait == if LockedOut(old(Tables()), ip, now) then FailOf(old(fails), ip).lockedUntil - now else 0
      ensures issued == if LockedOut(old(Tables()), ip, now) || attempt != password then None else sid
    {
      clock := now;
      var st := FailOf(fails, ip);
      if now < st.lockedUntil {
        return None, st.lockedUntil - now;
      }
      if attempt != password {
        var count := st.count + 1;
        var lockedUntil := st.lockedUntil;
        if count >= LOGIN_MAX_FAILS {
          lockedUntil := now + LOGIN_LOCKOUT;
          count := 0;
        }
        fails := fails[ip := Fail(count, lockedUntil)];
        return None, 0;
      }
      fails := fails - {ip};
      PruneLocked(now);
      ghost var kept := sessions;
      match sid
      case None => return None, 0;
      case Some(id) =>
        sessions := sessions[id := now + SESSION_TTL];
        OneMore(kept, id, now + SESSION_TTL);
        return Some(id), 0;
    }

    method ValidSession(id: string, now: nat) returns (ok: bool)
      requires Valid() && clock <= now
      modifies this
      ensures Valid() && clock == now
      ensures ok == Accepts(old(Tables()), id, now)
      ensures CheckStep(old(Tables()), id, now, Tables())
    {
      clock := now;
      if id == "" {
        return false;
      }
      if id !in sessions {
        assert sessions - {id} == sessions;
        return false;
      }
      if now > sessions[id] {
        Fewer(sessions, {id});
        sessions := sessions - {id};
        return false;
      }
      SameKeys(sessions, id, now + SESSION_TTL);
      sessions := sessions[id := now + SESSION_TTL];
      return true;
    }

    method Logout(id: string)
      requires Valid()
      modifies this
      ensures Valid() && clock == old(clock)
      ensures LogoutStep(old(Tables()), id, Tables())
      ensures id !in sessions && forall o :: o in old(sessions) && o != id ==> o in sessions
    {
      Fewer(sessions, {id});
      sessions := sessions - {id};
    }

    method PruneLocked(now: nat)
      requires ExpiriesBelow(sessions, now + SESSION_TTL)
      modifies this`sessions
      ensures Pruned(old(sessions), now, sessions)
    {
      ghost var before := sessions;
      DropExpired(now);
      while |sessions| >= MAX_SESSIONS
        invariant SubMap(sessions, before)
        invariant forall k :: k in sessions ==> now <= sessions[k]
        invariant OlderThanKept(before, now, sessions)
        invariant (exists k :: k in before && k !in sessions && now <= before[k]) ==> |sessions| >= MAX_SESSIONS - 1
        decreases |sessions|
      {
        var oldest := Oldest(now);
        Fewer(sessions, {oldest});
        sessions := sessions - {oldest};
      }
    }

    method DropExpired(now: nat)
      modifies this`sessions
      ensures SubMap(sessions, old(sessions))
      ensures forall k :: k in sessions <==> k in old(sessions) && now <= old(sessions)[k]
    {
      var todo := sessions.Keys;
      while todo != {}
        invariant todo <= old(sessions).Keys && SubMap(sessions, old(sessions))
        invariant forall k :: k in sessions <==> k in old(sessions) && (k in todo || now <= old(sessions)[k])
        decreases |todo|
      {
        var sid :| sid in todo;
        todo := todo - {sid};
        if now > sessions[sid] {
          sessions := sessions - {sid};
        }
      }
    }

    // The inner loop: with every expiry below now + 2·TTL it finds one.
    method Oldest(now: nat) returns (oldest: string)
      requires |sessions| >= MAX_SESSIONS && ExpiriesBelow(sessions, now + SESSION_TTL)
      ensures oldest in sessions && forall k :: k in sessions ==> sessions[oldest] <= sessions[k]
    {
      oldest := "";
      var oldestExp := now + 2 * SESSION_TTL;
      var todo := sessions.Keys;
      while todo != {}
        invariant todo <= sessions.Keys
        invariant forall k :: k in sessions && k !in todo ==> oldestExp <= sessions[k]
        invariant todo == sessions.Keys || (oldest in sessions && oldestExp == sessions[oldest])
        invariant todo == sessions.Keys ==> oldestExp == now + 2 * SESSION_TTL
        decreases |todo|
      {
        var sid :| sid in todo;
        todo := todo - {sid};
        assert sid in sessions && sessions[sid] < now + 2 * SESSION_TTL;
        if sessions[sid] < oldestExp {
          oldest, oldestExp := sid, sessions[sid];
        }
      }
    }
  }

  // ---- sizes -------------------------------------------------------------

  lemma Fewer(s: Sessions, gone: set<string>)
    ensures |s - gone| <= |s|
    ensures gone <= s.Keys ==> |s - gone| == |s| - |gone|
  {
    assert (s - gone).Keys == s.Keys - gone;
    assert s.Keys == (s.Keys - gone) + (s.Keys * gone);
    if gone <= s.Keys {
      assert s.Keys * gone == gone;
    }
  }

  lemma OneMore(s: Sessions, id: string, expiry: nat)
    ensures |s[id := expiry]| <= |s| + 1
  {
    assert s[id := expiry].Keys == s.Keys + {id};
  }

  lemma SameKeys(s: Sessions, id: string, expiry: nat)
    requires id in s
    ensures |s[id := expiry]| == |s|
  {
    assert s[id := expiry].Keys == s.Keys;
  }
}
