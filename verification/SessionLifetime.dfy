/** Password changes and the sessions of one user, over whole runs.

    A request loads its session, reads the password-change marker, and may then
    write the session back, which restarts its idle timeout. A password change
    stores the current second as a marker that lives one minute longer than the
    idle timeout. Every storage call is one step; any number of requests, logins
    and changes interleave. Clock in milliseconds, login times in seconds. */
module SessionLifetime {
  import opened Wrappers
  import opened Numbers

  const GRACE := 60000

  function Unix(ms: int): int { ms / 1000 }

  datatype Session = Session(login: int, csrf: bool, until: int)
  datatype Marker = Marker(changedAt: int, until: int)

  datatype Request =
    | Loaded(sid: nat, login: int, csrf: bool, since: int)       // marker not read yet
    | Accepted(sid: nat, login: int, csrf: bool, since: int)     // may write the session back
    | LoggingIn(sid: nat, login: int, csrf: bool, since: int)    // new session, not written yet
    | Changing(sid: nat, own: bool, at: int, since: int)         // marker value taken, not stored yet
    | Changed(sid: nat, own: bool, since: int)                   // `own`: made from the session `sid`

  /** `stored` records the values of all markers stored so far. */
  datatype State = State(now: int, marker: Option<Marker>, sessions: map<nat, Session>, requests: map<nat, Request>, stored: set<int>)

  const Init := State(0, None, map[], map[], {})

  datatype Event =
    | Tick(ms: nat)
    | Load(rid: nat, sid: nat)
    | CsrfSave(rid: nat)
    | Check(rid: nat)
    | Save(rid: nat)
    | Login(rid: nat, sid: nat)
    | StartChange(rid: nat)
    | StartReset(rid: nat)
    | StoreMarker(rid: nat)
    | Relogin(rid: nat)
    | Destroy(sid: nat)
    | End(rid: nat)

  predicate MarkerLive(s: State) {
    s.marker.Some? && s.now < s.marker.value.until
  }

  /** sessionInvalidatedByPasswordChange on the marker as it reads now. */
  predicate Invalidated(s: State, login: int) {
    MarkerLive(s) && login < s.marker.value.changedAt
  }

  predicate Enabled(s: State, e: Event) {
    match e
    case Tick(_) => true
    case Load(rid, sid) => rid !in s.requests && sid in s.sessions && s.now < s.sessions[sid].until
    case CsrfSave(rid) => rid in s.requests && s.requests[rid].Loaded? && !s.requests[rid].csrf
    case Check(rid) => rid in s.requests && s.requests[rid].Loaded?
    case Save(rid) => rid in s.requests && (s.requests[rid].Accepted? || s.requests[rid].LoggingIn?)
    case Login(rid, sid) => rid !in s.requests && sid !in s.sessions && forall r :: r in s.requests ==> s.requests[r].sid != sid
    case StartChange(rid) => rid in s.requests && s.requests[rid].Accepted?
    case StartReset(rid) => rid !in s.requests
    case StoreMarker(rid) => rid in s.requests && s.requests[rid].Changing?
    case Relogin(rid) => rid in s.requests && s.requests[rid].Changed? && s.requests[rid].own
    case Destroy(sid) => sid in s.sessions
    case End(rid) => rid in s.requests
  }

  function Written(s: State, sid: nat, login: int, csrf: bool, idle: nat): map<nat, Session> {
    s.sessions[sid := Session(login, csrf, s.now + idle)]
  }

  function Apply(idle: nat, s: State, e: Event): State
    requires Enabled(s, e)
  {
    match e
    case Tick(ms) => s.(now := s.now + ms)
    case Load(rid, sid) =>
      s.(requests := s.requests[rid := Loaded(sid, s.sessions[sid].login, s.sessions[sid].csrf, s.now)])
    case CsrfSave(rid) =>
      // a session without a CSRF token is saved before it is checked
      var r := s.requests[rid];
      s.(sessions := Written(s, r.sid, r.login, true, idle), requests := s.requests[rid := Loaded(r.sid, r.login, true, r.since)])
    case Check(rid) =>
      var r := s.requests[rid];
      if Invalidated(s, r.login) then s.(requests := s.requests - {rid})
      else s.(requests := s.requests[rid := Accepted(r.sid, r.login, r.csrf, r.since)])
    case Save(rid) =>
      var r := s.requests[rid];
      s.(sessions := Written(s, r.sid, r.login, r.csrf, idle))
    case Login(rid, sid) =>
      // a POST, so the session already carries a CSRF token
      s.(requests := s.requests[rid := LoggingIn(sid, Unix(s.now), true, s.now)])
    case StartChange(rid) =>
      var r := s.requests[rid];
      s.(requests := s.requests[rid := Changing(r.sid, true, Unix(s.now), r.since)])
    case StartReset(rid) =>
      s.(requests := s.requests[rid := Changing(0, false, Unix(s.now), s.now)])
    case StoreMarker(rid) =>
      var r := s.requests[rid];
      s.(marker := Some(Marker(r.at, s.now + idle + GRACE)),
         requests := s.requests[rid := Changed(r.sid, r.own, r.since)],
         stored := s.stored + {r.at})
    case Relogin(rid) =>
      var r := s.requests[rid];
      s.(sessions := Written(s, r.sid, Unix(s.now), true, idle), requests := s.requests - {rid})
    case Destroy(sid) => s.(sessions := s.sessions - {sid})
    case End(rid) => s.(requests := s.requests - {rid})
  }

  predicate Run(idle: nat, states: seq<State>, events: seq<Event>) {
    && |states| == |events| + 1
    && states[0] == Init
    && forall i :: 0 <= i < |events| ==> Enabled(states[i], events[i]) && states[i + 1] == Apply(idle, states[i], events[i])
  }

  /** No request stays in flight for more than `limit` milliseconds. */
  predicate Prompt(s: State, limit: int) {
    forall r :: r in s.requests ==> s.now - s.requests[r].since <= limit
  }

  predicate HasLogin(r: Request) {
    r.Loaded? || r.Accepted? || r.LoggingIn?
  }

  /** The check turns a request away exactly if a live marker is newer than its login, and
      touches nothing in the store; a login with a new session may come at any time. */
  lemma CheckMeans(idle: nat, s: State, rid: nat, sid: nat)
    ensures rid in s.requests && s.requests[rid].Loaded? ==>
      var r, s' := s.requests[rid], Apply(idle, s, Check(rid));
      && (rid in s'.requests <==> !(s.marker.Some? && s.now < s.marker.value.until && r.login < s.marker.value.changedAt))
      && s' == s.(requests := if rid in s'.requests then s.requests[rid := Accepted(r.sid, r.login, r.csrf, r.since)] else s.requests - {rid})
    ensures rid !in s.requests && sid !in s.sessions && (forall r :: r in s.requests ==> s.requests[r].sid != sid) ==>
      && Enabled(s, Login(rid, sid))
      && Apply(idle, s, Login(rid, sid)) == s.(requests := s.requests[rid := LoggingIn(sid, s.now / 1000, true, s.now)])
  {
  }

  /** At any time a session may be destroyed or run out, and a request may end; one that
      has loaded a session without a CSRF token may write it back before the check. */
  lemma SessionsEndAnyTime(idle: nat, s: State, rid: nat, sid: nat, ms: nat)
    ensures sid in s.sessions ==> Enabled(s, Destroy(sid)) && Apply(idle, s, Destroy(sid)) == s.(sessions := s.sessions - {sid})
    ensures rid in s.requests ==> Enabled(s, End(rid)) && Apply(idle, s, End(rid)) == s.(requests := s.requests - {rid})
    ensures rid in s.requests && s.requests[rid].Loaded? && !s.requests[rid].csrf ==>
      Enabled(s, CsrfSave(rid)) &&
      Apply(idle, s, CsrfSave(rid)).sessions == s.sessions[s.requests[rid].sid := Session(s.requests[rid].login, true, s.now + idle)]
    ensures Enabled(s, Tick(ms)) && Apply(idle, s, Tick(ms)) == s.(now := s.now + ms)
  {
  }

  // ---- What every run keeps ----

  predicate SaneSession(idle: nat, now: int, x: Session) {
    x.until <= now + idle && x.csrf
  }

  predicate SaneRequest(now: int, r: Request) {
    && r.since <= now
    && (HasLogin(r) ==> r.csrf)
    && (r.LoggingIn? ==> r.login == Unix(r.since))
    && (r.Changing? ==> r.at <= Unix(now))
  }

  ghost predicate Sane(idle: nat, s: State) {
    && (forall x :: x in s.sessions ==> SaneSession(idle, s.now, s.sessions[x]))
    && (forall r :: r in s.requests ==> SaneRequest(s.now, s.requests[r]))
    && (s.marker.Some? ==> s.marker.value.until <= s.now + idle + GRACE && s.marker.value.changedAt <= Unix(s.now))
  }

  lemma StepKeepsSaneRequests(idle: nat, s: State, e: Event, r: nat)
    requires Sane(idle, s) && Enabled(s, e) && r in Apply(idle, s, e).requests
    ensures SaneRequest(Apply(idle, s, e).now, Apply(idle, s, e).requests[r])
  {
    assert r in s.requests ==> SaneRequest(s.now, s.requests[r]);
  }

  lemma StepKeepsSane(idle: nat, s: State, e: Event)
    requires Sane(idle, s) && Enabled(s, e)
    ensures Sane(idle, Apply(idle, s, e))
  {
    var s' := Apply(idle, s, e);
    forall r | r in s'.requests ensures SaneRequest(s'.now, s'.requests[r]) {
      StepKeepsSaneRequests(idle, s, e, r);
    }
    forall x | x in s'.sessions ensures SaneSession(idle, s'.now, s'.sessions[x]) {
      assert x in s.sessions ==> SaneSession(idle, s.now, s.sessions[x]);
    }
  }

  lemma {:induction false} RunKeepsSane(idle: nat, states: seq<State>, events: seq<Event>, i: nat)
    requires Run(idle, states, events) && i <= |events|
    ensures Sane(idle, states[i])
  {
    if i > 0 {
      RunKeepsSane(idle, states, events, i - 1);
      StepKeepsSane(idle, states[i - 1], events[i - 1]);
    }
  }

  // ---- Old sessions stay out ----

  /** What is true from the moment a marker with value `c` is stored: with `t` the
      time of the last store, no session older than `c` lives past
      t + limit + idle, and whatever may still write one back passed its check
      before `t`. */
  ghost predicate Fenced(idle: nat, s: State, c: int, limit: int) {
    && s.marker.Some? && c <= s.marker.value.changedAt
    && var t := s.marker.value.until - idle - GRACE;
       && c * 1000 <= t <= s.now
       && (forall x :: x in s.sessions && s.sessions[x].login < c ==> s.sessions[x].until <= t + limit + idle)
       && (forall r :: r in s.requests && s.requests[r].Loaded? && s.requests[r].login < c ==> s.requests[r].since < t + limit + idle)
       && (forall r :: r in s.requests && s.requests[r].Accepted? && s.requests[r].login < c ==> s.requests[r].since <= t)
  }

  lemma FencedRejects(idle: nat, s: State, c: int, limit: int, rid: nat)
    requires Fenced(idle, s, c, limit) && Prompt(s, limit) && 2 * limit <= GRACE
    requires rid in s.requests && s.requests[rid].Loaded? && s.requests[rid].login < c
    ensures Invalidated(s, s.requests[rid].login)
  {
  }

  lemma StepKeepsFenced(idle: nat, s: State, e: Event, c: int, limit: int)
    requires Fenced(idle, s, c, limit) && Sane(idle, s) && Prompt(s, limit) && 0 <= 2 * limit <= GRACE && Enabled(s, e)
    requires e.StoreMarker? ==> c <= s.requests[e.rid].at
    ensures Fenced(idle, Apply(idle, s, e), c, limit)
  {
    if e.Check? && s.requests[e.rid].login < c {
      FencedRejects(idle, s, c, limit, e.rid);
    }
  }

  lemma StoreMakesFence(idle: nat, s: State, rid: nat, limit: nat)
    requires Sane(idle, s) && Enabled(s, StoreMarker(rid)) && 0 < limit
    ensures Fenced(idle, Apply(idle, s, StoreMarker(rid)), s.requests[rid].at, limit)
  {
  }

  lemma {:induction false} FenceHolds(idle: nat, states: seq<State>, events: seq<Event>, i: nat, j: nat, limit: nat)
    requires Run(idle, states, events) && i < j <= |events| && events[i].StoreMarker?
    requires 0 < 2 * limit <= GRACE
    requires forall k :: i < k < j ==> Prompt(states[k], limit)
    requires forall k :: i < k < j && events[k].StoreMarker? ==> states[i].requests[events[i].rid].at <= states[k].requests[events[k].rid].at
    ensures Fenced(idle, states[j], states[i].requests[events[i].rid].at, limit)
  {
    RunKeepsSane(idle, states, events, j - 1);
    if j == i + 1 {
      StoreMakesFence(idle, states[i], events[i].rid, limit);
    } else {
      FenceHolds(idle, states, events, i, j - 1, limit);
      StepKeepsFenced(idle, states[j - 1], events[j - 1], states[i].requests[events[i].rid].at, limit);
    }
  }

  /** Once a change has stored its marker, no request on a session with an older
      login time is ever accepted again, also after the marker is gone: provided
      requests finish within half the grace minute and no later store brings
      back a smaller marker. */
  lemma {:induction false} OldSessionsStayOut(idle: nat, states: seq<State>, events: seq<Event>, i: nat, j: nat, limit: nat)
    requires Run(idle, states, events) && i < j < |events| && events[i].StoreMarker? && events[j].Check?
    requires 0 < 2 * limit <= GRACE
    requires forall k :: i < k <= j ==> Prompt(states[k], limit)
    requires forall k :: i < k < j && events[k].StoreMarker? ==> states[i].requests[events[i].rid].at <= states[k].requests[events[k].rid].at
    requires states[j].requests[events[j].rid].login < states[i].requests[events[i].rid].at
    ensures events[j].rid !in states[j + 1].requests
  {
    FenceHolds(idle, states, events, i, j, limit);
    FencedRejects(idle, states[j], states[i].requests[events[i].rid].at, limit, events[j].rid);
  }

  // ---- The session that made the change stays in ----

  ghost predicate Kept(s: State, sid: nat, login: int) {
    && (s.marker.Some? ==> s.marker.value.changedAt <= login)
    && (sid in s.sessions ==> login <= s.sessions[sid].login)
    && (forall r :: r in s.requests && s.requests[r].sid == sid && HasLogin(s.requests[r]) ==> login <= s.requests[r].login)
  }

  lemma StepKeepsKept(idle: nat, s: State, e: Event, sid: nat, login: int)
    requires Kept(s, sid, login) && Enabled(s, e) && login <= Unix(s.now)
    requires e.StoreMarker? ==> s.requests[e.rid].at <= login
    ensures Kept(Apply(idle, s, e), sid, login)
  {
  }

  lemma {:induction false} KeptHolds(idle: nat, states: seq<State>, events: seq<Event>, i: nat, j: nat, sid: nat, login: int)
    requires Run(idle, states, events) && i <= j <= |events|
    requires Kept(states[i], sid, login) && login <= Unix(states[i].now)
    requires forall k :: i <= k < j && events[k].StoreMarker? ==> states[k].requests[events[k].rid].at <= login
    ensures Kept(states[j], sid, login) && login <= Unix(states[j].now)
  {
    if i < j {
      KeptHolds(idle, states, events, i, j - 1, sid, login);
      StepKeepsKept(idle, states[j - 1], events[j - 1], sid, login);
    }
  }

  /** After a change refreshed its own session at step `i`, every request on that
      session is accepted until a later change, if no other request on it was in
      flight at the time with the old login. */
  lemma {:induction false} ChangerStaysIn(idle: nat, states: seq<State>, events: seq<Event>, i: nat, j: nat, sid: nat)
    requires Run(idle, states, events) && i < j < |events| && events[i].Relogin? && events[j].Check?
    requires states[i].requests[events[i].rid].sid == sid == states[j].requests[events[j].rid].sid
    requires var login := Unix(states[i].now);
      && (forall r :: r in states[i].requests && states[i].requests[r].sid == sid && HasLogin(states[i].requests[r]) ==>
            login <= states[i].requests[r].login)
      && (forall k :: i < k < j && events[k].StoreMarker? ==> states[k].requests[events[k].rid].at <= login)
    ensures events[j].rid in states[j + 1].requests && states[j + 1].requests[events[j].rid].Accepted?
  {
    var login := Unix(states[i].now);
    RunKeepsSane(idle, states, events, i);
    assert Kept(states[i + 1], sid, login);
    KeptHolds(idle, states, events, i + 1, j, sid, login);
  }

  // ---- Both provisos are needed ----

  /** `s` ends a run in which no request stays in flight for more than `limit`. */
  ghost predicate Reached(idle: nat, limit: int, s: State) {
    exists states, events ::
      && Run(idle, states, events) && states[|events|] == s
      && (forall k :: 0 <= k <= |events| ==> Prompt(states[k], limit))
  }

  lemma Reach(idle: nat, limit: int, s: State, e: Event, s': State)
    requires Reached(idle, limit, s) && Enabled(s, e) && Apply(idle, s, e) == s' && Prompt(s', limit)
    ensures Reached(idle, limit, s')
  {
    var states: seq<State>, events: seq<Event> :|
      && Run(idle, states, events) && states[|events|] == s
      && (forall k :: 0 <= k <= |events| ==> Prompt(states[k], limit));
    RunExtends(idle, states, events, e);
  }

  lemma ReachedInit(idle: nat, limit: int)
    ensures Reached(idle, limit, Init)
  {
    assert Run(idle, [Init], []);
  }

  /** Requests that take a millisecond over half the grace period let an old
      session back in: one writes it back late, the next one loads it late and
      reads the marker after it has expired. */
  lemma SlowRequestsReadmit(idle: nat) returns (s: State, rid: nat)
    requires idle > 1000
    ensures Reached(idle, GRACE / 2 + 1, s) && s.stored == {1}
    ensures rid in s.requests && s.requests[rid].Loaded? && s.requests[rid].login < 1 && !Invalidated(s, s.requests[rid].login)
  {
    var limit := GRACE / 2 + 1;
    var m, t := Some(Marker(1, 1000 + idle + GRACE)), 1000 + limit;
    WrittenBackLate(idle, limit);
    var s4 := State(t, m, map[7 := Session(0, true, t + idle)], map[], {1});
    var s5 := s4.(now := t + idle - 1);
    var s6 := s5.(requests := map[3 := Loaded(7, 0, true, t + idle - 1)]);
    var s7 := s6.(now := 1000 + idle + GRACE);
    Reach(idle, limit, s4, Tick(idle - 1), s5);
    Reach(idle, limit, s5, Load(3, 7), s6);
    Reach(idle, limit, s6, Tick(GRACE - limit + 1), s7);
    s, rid := s7, 3;
  }

  lemma WrittenBackLate(idle: nat, limit: nat)
    requires idle > 1000 && limit >= 1000
    ensures Reached(idle, limit, State(1000 + limit, Some(Marker(1, 1000 + idle + GRACE)),
                                       map[7 := Session(0, true, 1000 + limit + idle)], map[], {1}))
  {
    OldRequestOutlivesChange(idle, limit);
    var m, t := Some(Marker(1, 1000 + idle + GRACE)), 1000 + limit;
    var s1 := State(1000, m, map[7 := Session(0, true, idle)], map[1 := Accepted(7, 0, true, 1000)], {1});
    var s2 := s1.(now := t);
    var s3 := s2.(sessions := map[7 := Session(0, true, t + idle)]);
    var s4 := s3.(requests := map[]);
    Reach(idle, limit, s1, Tick(limit), s2);
    Reach(idle, limit, s2, Save(1), s3);
    Reach(idle, limit, s3, End(1), s4);
  }

  /** A request on a session older than the marker stored at step `i` is checked
      at step `j`, after a stretch in which requests keep to the limit and no
      store brings back a smaller marker. */
  ghost predicate ChecksOldSession(idle: nat, states: seq<State>, events: seq<Event>, i: nat, j: nat, limit: int) {
    && Run(idle, states, events) && i < j < |events| && events[i].StoreMarker? && events[j].Check?
    && (forall k :: i < k <= j ==> Prompt(states[k], limit))
    && (forall k :: i < k < j && events[k].StoreMarker? ==> states[i].requests[events[i].rid].at <= states[k].requests[events[k].rid].at)
    && states[j].requests[events[j].rid].login < states[i].requests[events[i].rid].at
  }

  /** Every such check rejects, in every run. */
  ghost predicate KeepsOldSessionsOut(idle: nat, limit: int) {
    forall states: seq<State>, events: seq<Event>, i: nat, j: nat :: ChecksOldSession(idle, states, events, i, j, limit) ==>
      events[j].rid !in states[j + 1].requests
  }

  /** Half the grace minute is the exact bound. */
  lemma InFlightBoundIsExact(idle: nat, limit: nat)
    requires idle > 1000 && limit > 0
    ensures KeepsOldSessionsOut(idle, limit) <==> limit <= 30 * 1000
  {
    if 2 * limit <= GRACE {
      forall states: seq<State>, events: seq<Event>, i: nat, j: nat | ChecksOldSession(idle, states, events, i, j, limit)
        ensures events[j].rid !in states[j + 1].requests
      {
        OldSessionsStayOut(idle, states, events, i, j, limit);
      }
    } else {
      var s, rid := SlowRequestsReadmit(idle);
      Readmitted(idle, limit, s, rid);
    }
  }

  lemma Readmitted(idle: nat, limit: int, s: State, rid: nat)
    requires Reached(idle, GRACE / 2 + 1, s) && limit >= GRACE / 2 + 1 && s.stored == {1}
    requires rid in s.requests && s.requests[rid].Loaded? && s.requests[rid].login < 1 && !Invalidated(s, s.requests[rid].login)
    ensures !KeepsOldSessionsOut(idle, limit)
  {
    var states: seq<State>, events: seq<Event> :|
      && Run(idle, states, events) && states[|events|] == s
      && (forall k :: 0 <= k <= |events| ==> Prompt(states[k], GRACE / 2 + 1));
    var n, s' := |events|, Apply(idle, s, Check(rid));
    var i := StoredByStep(idle, states, events, n, 1);
    forall k | 0 <= k < n && events[k].StoreMarker? ensures states[k].requests[events[k].rid].at == 1 {
      StoresAreRecorded(idle, states, events, k, n);
    }
    var states', events' := states + [s'], events + [Check(rid)];
    RunExtends(idle, states, events, Check(rid));
    assert ChecksOldSession(idle, states', events', i, n, limit) && rid in states'[n + 1].requests;
  }

  lemma RunExtends(idle: nat, states: seq<State>, events: seq<Event>, e: Event)
    requires Run(idle, states, events) && Enabled(states[|events|], e)
    ensures var states', events' := states + [Apply(idle, states[|events|], e)], events + [e];
      && Run(idle, states', events') && states'[|events'|] == Apply(idle, states[|events|], e) && events'[|events|] == e
      && (forall k :: 0 <= k <= |events| ==> states'[k] == states[k])
      && (forall k :: 0 <= k < |events| ==> events'[k] == events[k])
  {
  }

  lemma {:induction false} StoredByStep(idle: nat, states: seq<State>, events: seq<Event>, n: nat, c: int) returns (i: nat)
    requires Run(idle, states, events) && n <= |events| && c in states[n].stored
    ensures i < n && events[i].StoreMarker? && states[i].requests[events[i].rid].at == c
  {
    if c in states[n - 1].stored {
      i := StoredByStep(idle, states, events, n - 1, c);
    } else {
      i := n - 1;
    }
  }

  lemma {:induction false} StoresAreRecorded(idle: nat, states: seq<State>, events: seq<Event>, k: nat, n: nat)
    requires Run(idle, states, events) && k < n <= |events| && events[k].StoreMarker?
    ensures states[k].requests[events[k].rid].at in states[n].stored
  {
    if k + 1 < n {
      StoresAreRecorded(idle, states, events, k, n - 1);
    }
  }

  lemma OldRequestOutlivesChange(idle: nat, limit: int)
    requires idle > 1000 && limit >= 1000
    ensures Reached(idle, limit, State(1000, Some(Marker(1, 1000 + idle + GRACE)),
                                       map[7 := Session(0, true, idle)], map[1 := Accepted(7, 0, true, 1000)], {1}))
  {
    var sessions := map[7 := Session(0, true, idle)];
    LoggedIn(idle, limit);
    var s3 := State(0, None, sessions, map[], {});
    var s4 := State(1000, None, sessions, map[], {});
    var s5 := State(1000, None, sessions, map[1 := Loaded(7, 0, true, 1000)], {});
    var s6 := State(1000, None, sessions, map[1 := Accepted(7, 0, true, 1000)], {});
    Reach(idle, limit, s3, Tick(1000), s4);
    Reach(idle, limit, s4, Load(1, 7), s5);
    Reach(idle, limit, s5, Check(1), s6);
    ResetStores(idle, limit, s6);
  }

  lemma LoggedIn(idle: nat, limit: nat)
    ensures Reached(idle, limit, State(0, None, map[7 := Session(0, true, idle)], map[], {}))
  {
    ReachedInit(idle, limit);
    var s1 := State(0, None, map[], map[0 := LoggingIn(7, 0, true, 0)], {});
    var s2 := State(0, None, map[7 := Session(0, true, idle)], map[0 := LoggingIn(7, 0, true, 0)], {});
    var s3 := State(0, None, map[7 := Session(0, true, idle)], map[], {});
    Reach(idle, limit, Init, Login(0, 7), s1);
    Reach(idle, limit, s1, Save(0), s2);
    Reach(idle, limit, s2, End(0), s3);
  }

  lemma ResetStores(idle: nat, limit: nat, s: State)
    requires Reached(idle, limit, s) && s.stored == {} && Prompt(s, limit) && s.now == 1000 && 2 !in s.requests
    ensures Reached(idle, limit, s.(marker := Some(Marker(1, 1000 + idle + GRACE)), stored := {1}))
  {
    var m := Some(Marker(1, 1000 + idle + GRACE));
    var s1 := s.(requests := s.requests[2 := Changing(0, false, 1, 1000)]);
    var s2 := s1.(marker := m, requests := s1.requests[2 := Changed(0, false, 1000)], stored := {1});
    Reach(idle, limit, s, StartReset(2), s1);
    Reach(idle, limit, s1, StoreMarker(2), s2);
    assert s2.requests - {2} == s.requests;
    Reach(idle, limit, s2, End(2), s.(marker := m, stored := {1}));
  }

  /** Two overlapping changes may store their markers in the wrong order; a
      session from in between is then accepted although the later change stored
      a marker that is newer than its login. */
  lemma OverlappingChangesReadmit(idle: nat) returns (s: State, rid: nat)
    requires idle > 1000
    ensures Reached(idle, 2000, s) && s.stored == {1, 3}
    ensures rid in s.requests && s.requests[rid].Loaded? && s.requests[rid].login < 3 && !Invalidated(s, s.requests[rid].login)
  {
    LoginBetweenChanges(idle);
    var sessions := map[7 := Session(2, true, 3000 + idle)];
    var a, b, l := Changing(0, false, 1, 1000), Changing(0, false, 3, 3000), LoggingIn(7, 2, true, 2000);
    var s1 := State(3000, None, sessions, map[0 := l, 1 := a, 2 := b], {});
    var s2 := State(3000, Some(Marker(3, 3000 + idle + GRACE)), sessions, map[0 := l, 1 := a, 2 := Changed(0, false, 3000)], {3});
    var s3 := State(3000, Some(Marker(1, 3000 + idle + GRACE)), sessions, map[0 := l, 1 := Changed(0, false, 1000), 2 := Changed(0, false, 3000)], {1, 3});
    Reach(idle, 2000, s1, StoreMarker(2), s2);
    Reach(idle, 2000, s2, StoreMarker(1), s3);
    s, rid := LoadsAfterwards(idle, s3);
  }

  /** The states a run goes through from `s` on, with requests within the limit. */
  ghost predicate Continues(idle: nat, limit: int, s: State, states: seq<State>, events: seq<Event>) {
    && |states| == |events| + 1
    && states[0] == s
    && (forall i :: 0 <= i < |events| ==> Enabled(states[i], events[i]) && states[i + 1] == Apply(idle, states[i], events[i]))
    && (forall i :: 0 <= i <= |events| ==> Prompt(states[i], limit))
  }

  ghost predicate Rejects(s: State, login: int) {
    forall rid :: rid in s.requests && s.requests[rid].Loaded? && s.requests[rid].login == login ==> Invalidated(s, login)
  }

  /** Whatever follows, a check of a request with that login time rejects. */
  ghost predicate StaysOut(idle: nat, limit: int, s: State, login: int) {
    forall states: seq<State>, events: seq<Event> :: Continues(idle, limit, s, states, events) ==> Rejects(states[|events|], login)
  }

  /** Every change under way will store a marker above that login time. */
  predicate ChangesAbove(s: State, login: int) {
    forall r :: r in s.requests && s.requests[r].Changing? ==> login < s.requests[r].at
  }

  lemma StepKeepsAbove(idle: nat, s: State, e: Event, login: int, limit: int)
    requires Fenced(idle, s, login + 1, limit) && ChangesAbove(s, login) && Enabled(s, e)
    ensures ChangesAbove(Apply(idle, s, e), login)
  {
  }

  lemma {:induction false} AboveStaysOut(idle: nat, limit: int, s: State, states: seq<State>, events: seq<Event>, i: nat, login: int)
    requires Continues(idle, limit, s, states, events) && i <= |events| && 0 <= 2 * limit <= GRACE
    requires Fenced(idle, s, login + 1, limit) && Sane(idle, s) && ChangesAbove(s, login)
    ensures Fenced(idle, states[i], login + 1, limit) && Sane(idle, states[i]) && ChangesAbove(states[i], login)
  {
    if i > 0 {
      AboveStaysOut(idle, limit, s, states, events, i - 1, login);
      StepKeepsFenced(idle, states[i - 1], events[i - 1], login + 1, limit);
      StepKeepsSane(idle, states[i - 1], events[i - 1]);
      StepKeepsAbove(idle, states[i - 1], events[i - 1], login, limit);
    }
  }

  /** A change that took its time before the login stores its marker late, and the
      session is loaded and accepted. */
  lemma LowerMarkerReadmits(idle: nat, limit: nat, s: State, changer: nat, sid: nat)
    requires Prompt(s, limit) && changer in s.requests && s.requests[changer].Changing?
    requires sid in s.sessions && s.now < s.sessions[sid].until && s.requests[changer].at <= s.sessions[sid].login
    ensures !StaysOut(idle, limit, s, s.sessions[sid].login)
  {
    var rid := FreshNumber(s.requests.Keys);
    var s1 := Apply(idle, s, StoreMarker(changer));
    var s2 := Apply(idle, s1, Load(rid, sid));
    assert Continues(idle, limit, s, [s, s1, s2], [StoreMarker(changer), Load(rid, sid)]);
    assert s2.requests[rid].Loaded? && s2.requests[rid].login == s.sessions[sid].login;
    assert !Rejects(s2, s.sessions[sid].login);
  }

  /** The order of the markers matters exactly so: once a marker above the login time
      of a live session is stored, that login stays out of everything that may
      follow if and only if every change under way then took its time after it. */
  lemma OrderOfChangesIff(idle: nat, limit: nat, s: State, c: int, sid: nat)
    requires Fenced(idle, s, c, limit) && Sane(idle, s) && Prompt(s, limit) && 0 < 2 * limit <= GRACE
    requires sid in s.sessions && s.now < s.sessions[sid].until && s.sessions[sid].login < c
    ensures StaysOut(idle, limit, s, s.sessions[sid].login) <==> ChangesAbove(s, s.sessions[sid].login)
  {
    var login := s.sessions[sid].login;
    if ChangesAbove(s, login) {
      forall states: seq<State>, events: seq<Event> | Continues(idle, limit, s, states, events)
        ensures Rejects(states[|events|], login)
      {
        AboveStaysOut(idle, limit, s, states, events, |events|, login);
        var t := states[|events|];
        forall rid | rid in t.requests && t.requests[rid].Loaded? && t.requests[rid].login == login ensures Invalidated(t, login) {
          FencedRejects(idle, t, login + 1, limit, rid);
        }
      }
    } else {
      var changer :| changer in s.requests && s.requests[changer].Changing? && s.requests[changer].at <= login;
      LowerMarkerReadmits(idle, limit, s, changer, sid);
    }
  }

  lemma LoadsAfterwards(idle: nat, s3: State) returns (s: State, rid: nat)
    requires Reached(idle, 2000, s3) && Prompt(s3, 2000) && 3 !in s3.requests && s3.now == 3000 && idle > 0
    requires s3.sessions == map[7 := Session(2, true, 3000 + idle)] && s3.marker == Some(Marker(1, 3000 + idle + GRACE))
    ensures Reached(idle, 2000, s) && s.stored == s3.stored
    ensures rid in s.requests && s.requests[rid].Loaded? && s.requests[rid].login == 2 && !Invalidated(s, 2)
  {
    s, rid := Apply(idle, s3, Load(3, 7)), 3;
    Reach(idle, 2000, s3, Load(3, 7), s);
  }

  lemma LoginBetweenChanges(idle: nat)
    ensures Reached(idle, 2000, State(3000, None, map[7 := Session(2, true, 3000 + idle)],
                                      map[0 := LoggingIn(7, 2, true, 2000), 1 := Changing(0, false, 1, 1000), 2 := Changing(0, false, 3, 3000)], {}))
  {
    LoginAfterChangeStarts(idle);
    var a, b, l := Changing(0, false, 1, 1000), Changing(0, false, 3, 3000), LoggingIn(7, 2, true, 2000);
    var s4 := State(2000, None, map[], map[0 := l, 1 := a], {});
    var s5 := s4.(now := 3000);
    var s6 := s5.(sessions := map[7 := Session(2, true, 3000 + idle)]);
    Reach(idle, 2000, s4, Tick(1000), s5);
    Reach(idle, 2000, s5, Save(0), s6);
    Reach(idle, 2000, s6, StartReset(2), s6.(requests := map[0 := l, 1 := a, 2 := b]));
  }

  lemma LoginAfterChangeStarts(idle: nat)
    ensures Reached(idle, 2000, State(2000, None, map[], map[0 := LoggingIn(7, 2, true, 2000), 1 := Changing(0, false, 1, 1000)], {}))
  {
    ReachedInit(idle, 2000);
    var a := Changing(0, false, 1, 1000);
    var s1 := Init.(now := 1000);
    var s2 := State(1000, None, map[], map[1 := a], {});
    var s3 := s2.(now := 2000);
    Reach(idle, 2000, Init, Tick(1000), s1);
    Reach(idle, 2000, s1, StartReset(1), s2);
    Reach(idle, 2000, s2, Tick(1000), s3);
    Reach(idle, 2000, s3, Login(0, 7), s3.(requests := map[0 := LoggingIn(7, 2, true, 2000), 1 := a]));
  }
}
