/** Password-expiry reminder mails. A sweep takes the time once, then visits every
    user; a marker in the store remembers each reminder sent. Storage works here;
    delivery may fail. Clock in milliseconds, expiry dates in seconds. */
module ExpiryReminders {
  import opened Wrappers
  import opened Storage
  import opened Keys

  const DAY := 24 * 3600 * 1000

  datatype User = User(username: string, locked: bool, hasEmail: bool, expiry: Option<nat>)

  datatype Mail = Mail(username: string, expiry: nat, days: int, left: int)

  /** How long the storage read, the mail and the marker of one visit take, and
      whether the mail goes out. */
  datatype Timing = Timing(read: nat, send: nat, write: nat, delivered: bool)

  datatype State = State(clock: int, sweepNow: int, days: seq<int>, contents: Contents<()>, mails: seq<Mail>)

  /** The remaining time fits into a window of d days. */
  predicate Fits(left: int, d: int) {
    left <= d * DAY
  }

  ghost predicate Sorted(days: seq<int>) {
    forall i, j :: 0 <= i <= j < |days| ==> days[i] <= days[j]
  }

  /** The tightest window: the smallest configured one the remaining time fits into. */
  ghost predicate Tightest(days: seq<int>, left: int, d: int) {
    d in days && Fits(left, d) && forall e :: e in days && Fits(left, e) ==> d <= e
  }

  function FirstFit(days: seq<int>, left: int): (r: Option<int>)
    ensures r.Some? ==> r.value in days && Fits(left, r.value)
    ensures r.None? ==> forall e :: e in days ==> !Fits(left, e)
  {
    if days == [] then None
    else if Fits(left, days[0]) then Some(days[0])
    else
      var r := FirstFit(days[1..], left);
      assert days == [days[0]] + days[1..];
      r
  }

  lemma {:induction false} FirstFitIsTightest(days: seq<int>, left: int)
    requires Sorted(days)
    ensures FirstFit(days, left).Some? ==> Tightest(days, left, FirstFit(days, left).value)
  {
    if days != [] && !Fits(left, days[0]) {
      FirstFitIsTightest(days[1..], left);
      assert days == [days[0]] + days[1..];
    }
  }

  function MarkerKey(m: Mail): string
    requires m.days >= 0
  {
    Render(Reminder(m.username, m.expiry, m.days))
  }

  predicate Due(u: User, now: int) {
    !u.locked && u.hasEmail && u.expiry.Some? && u.expiry.value * 1000 - now > 0
  }

  /** The reminder a user is due for in a sweep at `now`, whether or not it was sent before. */
  function MailFor(days: seq<int>, now: int, u: User): (r: Option<Mail>)
    ensures r.Some? ==> r.value.left > 0 && r.value.days >= 0 && r.value.left == r.value.expiry * 1000 - now
  {
    if !Due(u, now) then None
    else
      var left := u.expiry.value * 1000 - now;
      var d := FirstFit(days, left);
      if d.None? then None else Some(Mail(u.username, u.expiry.value, d.value, left))
  }

  lemma MailForIsTightest(days: seq<int>, now: int, u: User)
    requires Sorted(days) && MailFor(days, now, u).Some?
    ensures Tightest(days, MailFor(days, now, u).value.left, MailFor(days, now, u).value.days)
  {
    FirstFitIsTightest(days, u.expiry.value * 1000 - now);
  }

  /** Who is mailed: exactly the users who can log in, have an address and a password
      that is yet to expire within some window; the mail names the date and the smallest
      such window. */
  lemma MailForIff(days: seq<int>, now: int, u: User)
    requires Sorted(days)
    ensures MailFor(days, now, u).Some? <==>
      && !u.locked && u.hasEmail && u.expiry.Some? && now < u.expiry.value * 1000
      && exists d :: d in days && u.expiry.value * 1000 - now <= d * 24 * 3600 * 1000
    ensures MailFor(days, now, u).Some? ==>
      var m := MailFor(days, now, u).value;
      && m.username == u.username && m.expiry == u.expiry.value && m.left == m.expiry * 1000 - now
      && m.days in days && m.left <= m.days * 24 * 3600 * 1000
      && forall d :: d in days && m.left <= d * 24 * 3600 * 1000 ==> m.days <= d
  {
    if Due(u, now) {
      var left := u.expiry.value * 1000 - now;
      FirstFitIsTightest(days, left);
      forall d: int ensures Fits(left, d) <==> left <= d * 24 * 3600 * 1000 {
      }
    }
  }

  /** One user within a sweep that started at `s.sweepNow`. */
  function Visit(s: State, u: User, t: Timing): State {
    match MailFor(s.days, s.sweepNow, u)
    case None => s
    case Some(m) => Remind(s, m, t)
  }

  function Remind(s: State, m: Mail, t: Timing): State
    requires m.days >= 0
  {
    var sentAt := s.clock + t.read + t.send;
    if Alive(s.contents, MarkerKey(m), s.clock + t.read) then s.(clock := s.clock + t.read)
    else if !t.delivered then s.(clock := sentAt)
    else
      s.(clock := sentAt + t.write,
         contents := Put(s.contents, MarkerKey(m), (), m.expiry * 1000 - sentAt + DAY, sentAt + t.write),
         mails := s.mails + [m])
  }

  function VisitAll(s: State, users: seq<User>, timings: nat -> Timing, n: nat): State
    requires n <= |users|
  {
    if n == 0 then s else Visit(VisitAll(s, users, timings, n - 1), users[n - 1], timings(n - 1))
  }

  class Scheduler {
    var clock: int
    var contents: Contents<()>
    var mails: seq<Mail>

    constructor ()
      ensures clock == 0 && contents == map[] && mails == []
    {
      clock, contents, mails := 0, map[], [];
    }

    /** One sweep over the users found; `days` as expiryReminderDays returns it.
        Counts the mails sent. */
    method Sweep(users: seq<User>, days: seq<int>, timings: nat -> Timing) returns (sent: nat)
      requires Sorted(days)
      modifies this
      ensures State(clock, old(clock), days, contents, mails) ==
              VisitAll(State(old(clock), old(clock), days, old(contents), old(mails)), users, timings, |users|)
      ensures old(mails) <= mails && sent == |mails| - old(|mails|)
      ensures forall i :: old(|mails|) <= i < |mails| ==> Tightest(days, mails[i].left, mails[i].days) && mails[i].left > 0
    {
      var now := clock;
      sent := 0;
      ghost var start := State(clock, clock, days, contents, mails);
      for n := 0 to |users|
        invariant now == old(clock)
        invariant State(clock, now, days, contents, mails) == VisitAll(start, users, timings, n)
        invariant old(mails) <= mails && sent == |mails| - old(|mails|)
        invariant forall i :: old(|mails|) <= i < |mails| ==> Tightest(days, mails[i].left, mails[i].days) && mails[i].left > 0
      {
        var mailed := VisitOne(now, users[n], days, timings(n));
        if mailed {
          MailForIsTightest(days, now, users[n]);
          sent := sent + 1;
        }
      }
    }

    method VisitOne(now: int, user: User, days: seq<int>, t: Timing) returns (mailed: bool)
      requires Sorted(days)
      modifies this
      ensures State(clock, now, days, contents, mails) == Visit(old(State(clock, now, days, contents, mails)), user, t)
      ensures mailed ==> MailFor(days, now, user).Some?
      ensures mails == if mailed then old(mails) + [MailFor(days, now, user).value] else old(mails)
    {
      mailed := false;
      if user.locked || !user.hasEmail || user.expiry.None? {
        return;
      }
      var left := user.expiry.value * 1000 - now;
      if left <= 0 {
        return;
      }
      var d := FindWindow(days, left);
      if d.None? {
        return;
      }
      mailed := RemindOne(Mail(user.username, user.expiry.value, d.value, left), t, now, days);
    }

    method RemindOne(m: Mail, t: Timing, ghost now: int, ghost days: seq<int>) returns (mailed: bool)
      requires m.days >= 0
      modifies this
      ensures State(clock, now, days, contents, mails) == Remind(old(State(clock, now, days, contents, mails)), m, t)
      ensures mails == if mailed then old(mails) + [m] else old(mails)
    {
      mailed := false;
      var key := MarkerKey(m);
      clock := clock + t.read;
      if key in contents && (contents[key].deadline.None? || clock < contents[key].deadline.value) {
        return;
      }
      clock := clock + t.send;
      if !t.delivered {
        return; // unmarked, so the next sweep tries again
      }
      var ttl := m.expiry * 1000 - clock + DAY;
      clock := clock + t.write;
      contents := contents[key := Entry((), if ttl == 0 then None else Some(clock + ttl))];
      mails := mails + [m];
      mailed := true;
    }
  }

  /** The loop over the windows: too small ones are skipped, the first that fits decides. */
  method FindWindow(days: seq<int>, left: int) returns (d: Option<int>)
    ensures d == FirstFit(days, left)
  {
    var i := 0;
    while i < |days|
      invariant 0 <= i <= |days|
      invariant FirstFit(days, left) == FirstFit(days[i..], left)
    {
      if left > days[i] * DAY {
        assert days[i..][1..] == days[i + 1..];
        i := i + 1;
        continue;
      }
      return Some(days[i]);
    }
    d := None;
  }

  // ---- Any number of sweeps ----

  datatype Event =
    | Begin(days: seq<int>)
    | VisitUser(user: User, timing: Timing)
    | Elapse(ms: nat)
    | Foreign(key: Key, ttl: int, put: bool)

  const Init := State(0, 0, [], map[], [])

  /** Configured windows arrive sorted; other components write other keys; a sweep
      takes `limit` at most. */
  predicate Enabled(limit: nat, s: State, e: Event) {
    match e
    case Begin(days) => forall i, j :: 0 <= i <= j < |days| ==> days[i] <= days[j]
    case VisitUser(_, t) => s.clock + t.read + t.send + t.write <= s.sweepNow + limit
    case Elapse(_) => true
    case Foreign(key, _, _) => !key.Reminder?
  }

  function Apply(s: State, e: Event): State {
    match e
    case Begin(days) => s.(sweepNow := s.clock, days := days)
    case VisitUser(user, timing) => Visit(s, user, timing)
    case Elapse(ms) => s.(clock := s.clock + ms)
    case Foreign(key, ttl, put) =>
      s.(contents := if put then Put(s.contents, Render(key), (), ttl, s.clock) else s.contents - {Render(key)})
  }

  predicate Run(limit: nat, states: seq<State>, events: seq<Event>) {
    && |states| == |events| + 1
    && states[0] == Init
    && forall i :: 0 <= i < |events| ==> Enabled(limit, states[i], events[i]) && states[i + 1] == Apply(states[i], events[i])
  }

  /** A sweep may begin at any time, under any sorted windows; other components may store
      or delete any entry that is not a reminder marker. */
  lemma ComesAnyTime(limit: nat, s: State, days: seq<int>, key: Key, ttl: int)
    requires !key.Reminder?
    ensures Sorted(days) ==> Enabled(limit, s, Begin(days)) && Apply(s, Begin(days)) == s.(sweepNow := s.clock, days := days)
    ensures Enabled(limit, s, Foreign(key, ttl, true)) && Enabled(limit, s, Foreign(key, ttl, false))
    ensures Apply(s, Foreign(key, ttl, true)) ==
      s.(contents := s.contents[Render(key) := Entry((), if ttl == 0 then None else Some(s.clock + ttl))])
    ensures Apply(s, Foreign(key, ttl, false)) == s.(contents := s.contents - {Render(key)})
  {
  }

  /** The marker of a sent mail lives a day longer than the expiry date. */
  ghost predicate MarkerStands(c: Contents<()>, m: Mail) {
    && m.days >= 0 && MarkerKey(m) in c
    && (c[MarkerKey(m)].deadline.Some? ==> m.expiry * 1000 + DAY <= c[MarkerKey(m)].deadline.value)
  }

  ghost predicate Inv(s: State) {
    && s.sweepNow <= s.clock && Sorted(s.days)
    && (forall i :: 0 <= i < |s.mails| ==> MarkerStands(s.contents, s.mails[i]))
    && (forall i :: 0 <= i < |s.mails| ==> s.mails[i].expiry * 1000 - s.mails[i].left <= s.sweepNow && s.mails[i].left > 0)
    && (forall i, j :: 0 <= i < j < |s.mails| ==> Follows(s.mails[i], s.mails[j]))
  }

  /** Of two mails about one expiry date the later is for less remaining time and
      another window. */
  predicate Follows(earlier: Mail, later: Mail) {
    SameDate(earlier, later) ==> later.left <= earlier.left && later.days != earlier.days
  }

  ghost predicate Sent(mails: seq<Mail>, username: string, expiry: nat, days: int) {
    exists i :: 0 <= i < |mails| && mails[i].username == username && mails[i].expiry == expiry && mails[i].days == days
  }

  /** Every marker belongs to a mail that went out. */
  ghost predicate NoPhantoms(s: State) {
    forall u: string, x: nat, d: nat :: Render(Reminder(u, x, d)) in s.contents ==> Sent(s.mails, u, x, d)
  }

  lemma StepKeepsNoPhantoms(limit: nat, s: State, e: Event)
    requires NoPhantoms(s) && Enabled(limit, s, e)
    ensures NoPhantoms(Apply(s, e))
  {
    var s' := Apply(s, e);
    forall u: string, x: nat, d: nat | Render(Reminder(u, x, d)) in s'.contents ensures Sent(s'.mails, u, x, d) {
      if e.Foreign? && Render(Reminder(u, x, d)) == Render(e.key) {
        RenderInjective(Reminder(u, x, d), e.key);
      }
      if Render(Reminder(u, x, d)) in s.contents {
        var i :| 0 <= i < |s.mails| && s.mails[i].username == u && s.mails[i].expiry == x && s.mails[i].days == d;
        assert s'.mails[i] == s.mails[i];
      } else {
        var m := s'.mails[|s.mails|];
        RenderInjective(Reminder(u, x, d), Reminder(m.username, m.expiry, m.days));
      }
    }
  }

  lemma {:induction false} RunKeepsNoPhantoms(limit: nat, states: seq<State>, events: seq<Event>, i: nat)
    requires Run(limit, states, events) && i <= |events|
    ensures NoPhantoms(states[i])
  {
    if i > 0 {
      RunKeepsNoPhantoms(limit, states, events, i - 1);
      StepKeepsNoPhantoms(limit, states[i - 1], events[i - 1]);
    }
  }

  /** No reminder is forgotten: whenever a sweep visits a user whose password
      expires within a window and mail works, that user has been reminded for the
      tightest window afterwards. */
  lemma {:induction false} RemindedAfterVisit(limit: nat, states: seq<State>, events: seq<Event>, i: nat)
    requires Run(limit, states, events) && i < |events| && events[i].VisitUser? && events[i].timing.delivered
    requires MailFor(states[i].days, states[i].sweepNow, events[i].user).Some?
    ensures var m := MailFor(states[i].days, states[i].sweepNow, events[i].user).value;
      Sent(states[i + 1].mails, m.username, m.expiry, m.days)
  {
    RunKeepsNoPhantoms(limit, states, events, i);
    var s, t := states[i], events[i].timing;
    var m := MailFor(s.days, s.sweepNow, events[i].user).value;
    if !Alive(s.contents, MarkerKey(m), s.clock + t.read) {
      assert states[i + 1].mails[|s.mails|] == m;
    }
  }

  /** Nobody else is ever mailed: every mail of a run went out on the visit to its user,
      who could log in, had an address and that expiry date still ahead. */
  ghost predicate MailedOnVisit(states: seq<State>, events: seq<Event>, k: int, m: Mail)
    requires |states| == |events| + 1
  {
    && 0 <= k < |events| && events[k].VisitUser? && events[k].timing.delivered
    && var u := events[k].user;
      u.username == m.username && !u.locked && u.hasEmail && u.expiry == Some(m.expiry) && states[k].sweepNow < m.expiry * 1000
  }

  lemma StepMails(s: State, e: Event)
    ensures var s' := Apply(s, e);
      s'.mails == s.mails ||
      (e.VisitUser? && e.timing.delivered && MailFor(s.days, s.sweepNow, e.user).Some? &&
       s'.mails == s.mails + [MailFor(s.days, s.sweepNow, e.user).value])
  {
  }

  lemma {:induction false} MailsOnlyOnVisits(limit: nat, states: seq<State>, events: seq<Event>, n: nat, i: nat) returns (k: nat)
    requires Run(limit, states, events) && n <= |events| && i < |states[n].mails|
    ensures k < n && MailedOnVisit(states, events, k, states[n].mails[i])
  {
    if i < |states[n - 1].mails| {
      k := MailsOnlyOnVisits(limit, states, events, n - 1, i);
      StepMails(states[n - 1], events[n - 1]);
    } else {
      k := n - 1;
      StepMails(states[n - 1], events[n - 1]);
    }
  }

  predicate SameDate(m: Mail, n: Mail) {
    m.username == n.username && m.expiry == n.expiry
  }

  /** A marker that stands outlives every visit that could repeat its mail. */
  lemma MarkerPreventsRepeat(s: State, n: Mail, t: Timing, m: Mail)
    requires MarkerStands(s.contents, m) && n.days >= 0
    requires s.clock + t.read <= s.sweepNow + DAY && s.sweepNow < n.expiry * 1000
    requires SameDate(m, n) && m.days == n.days
    ensures Remind(s, n, t).mails == s.mails
  {
    assert MarkerKey(m) == MarkerKey(n);
  }

  lemma ForeignKeepsMarkers(s: State, key: Key, ttl: int, put: bool, m: Mail)
    requires MarkerStands(s.contents, m) && !key.Reminder?
    ensures MarkerStands(Apply(s, Foreign(key, ttl, put)).contents, m)
  {
    if Render(key) == MarkerKey(m) {
      RenderInjective(key, Reminder(m.username, m.expiry, m.days));
    }
  }

  lemma RemindKeepsInv(s: State, m: Mail, t: Timing)
    requires Inv(s) && m.days >= 0 && m.left > 0 && m.left == m.expiry * 1000 - s.sweepNow
    requires s.clock + t.read + t.send + t.write <= s.sweepNow + DAY
    ensures Inv(Remind(s, m, t))
  {
    var s' := Remind(s, m, t);
    forall i | 0 <= i < |s.mails| ensures s'.mails == s.mails || Follows(s.mails[i], m) {
      if SameDate(s.mails[i], m) && s.mails[i].days == m.days {
        MarkerPreventsRepeat(s, m, t, s.mails[i]);
      }
    }
  }

  lemma StepKeepsInv(limit: nat, s: State, e: Event)
    requires limit <= DAY && Inv(s) && Enabled(limit, s, e)
    ensures Inv(Apply(s, e))
  {
    match e {
      case VisitUser(u, t) =>
        if MailFor(s.days, s.sweepNow, u).Some? {
          RemindKeepsInv(s, MailFor(s.days, s.sweepNow, u).value, t);
        }
      case Foreign(key, ttl, put) =>
        forall i | 0 <= i < |s.mails| ensures MarkerStands(Apply(s, e).contents, s.mails[i]) {
          ForeignKeepsMarkers(s, key, ttl, put, s.mails[i]);
        }
      case _ =>
    }
  }

  lemma {:induction false} RunKeepsInv(limit: nat, states: seq<State>, events: seq<Event>, i: nat)
    requires limit <= DAY && Run(limit, states, events) && i <= |events|
    ensures Inv(states[i])
  {
    if i > 0 {
      RunKeepsInv(limit, states, events, i - 1);
      StepKeepsInv(limit, states[i - 1], events[i - 1]);
    }
  }

  /** Over any number of sweeps of at most a day, with windows reconfigured at will
      in between, no (user, expiry date, window) is mailed twice. */
  lemma {:induction false} RemindedOnce(limit: nat, states: seq<State>, events: seq<Event>, i: nat, j: nat)
    requires limit <= DAY && Run(limit, states, events) && i < j < |states[|events|].mails|
    ensures var m := states[|events|].mails; !(SameDate(m[i], m[j]) && m[i].days == m[j].days)
  {
    RunKeepsInv(limit, states, events, |events|);
    assert Follows(states[|events|].mails[i], states[|events|].mails[j]);
  }

  ghost predicate Fixed(events: seq<Event>, days: seq<int>) {
    forall k :: 0 <= k < |events| && events[k].Begin? ==> events[k].days == days
  }

  /** Every mail is for the tightest window around its remaining time. */
  lemma {:induction false} MailsAreTightest(limit: nat, states: seq<State>, events: seq<Event>, days: seq<int>, n: nat)
    requires Run(limit, states, events) && Fixed(events, days) && n <= |events|
    ensures (states[n].days == days || states[n].days == []) && Sorted(states[n].days)
    ensures forall i :: 0 <= i < |states[n].mails| ==> Tightest(days, states[n].mails[i].left, states[n].mails[i].days)
  {
    if n > 0 {
      MailsAreTightest(limit, states, events, days, n - 1);
      var s, e := states[n - 1], events[n - 1];
      if e.VisitUser? && MailFor(s.days, s.sweepNow, e.user).Some? {
        MailForIsTightest(s.days, s.sweepNow, e.user);
      }
    }
  }

  /** Under one configuration the windows mailed for one expiry date strictly shrink. */
  lemma {:induction false} WindowsShrink(limit: nat, states: seq<State>, events: seq<Event>, days: seq<int>, i: nat, j: nat)
    requires limit <= DAY && Run(limit, states, events) && Fixed(events, days) && i < j < |states[|events|].mails|
    requires SameDate(states[|events|].mails[i], states[|events|].mails[j])
    ensures states[|events|].mails[j].days < states[|events|].mails[i].days
  {
    RunKeepsInv(limit, states, events, |events|);
    MailsAreTightest(limit, states, events, days, |events|);
    var m := states[|events|].mails;
    assert Follows(m[i], m[j]) && Fits(m[j].left, m[i].days);
  }

  /** No (user, expiry date, window) is mailed twice, in any run whose sweeps take
      at most `limit`. */
  ghost predicate NeverRepeats(limit: nat) {
    forall states: seq<State>, events: seq<Event>, i: nat, j: nat ::
      Run(limit, states, events) && i < j < |states[|events|].mails| ==> !SameReminder(states[|events|].mails[i], states[|events|].mails[j])
  }

  predicate SameReminder(m: Mail, n: Mail) {
    SameDate(m, n) && m.days == n.days
  }

  /** A day is the exact bound: a longer sweep may start just before the expiry date
      and read the marker when it is gone. */
  lemma SweepBoundIsExact(limit: nat)
    ensures NeverRepeats(limit) <==> limit <= 24 * 3600 * 1000
  {
    if limit <= DAY {
      forall states: seq<State>, events: seq<Event>, i: nat, j: nat | Run(limit, states, events) && i < j < |states[|events|].mails|
        ensures !SameReminder(states[|events|].mails[i], states[|events|].mails[j])
      {
        RemindedOnce(limit, states, events, i, j);
      }
    } else {
      var states, events := SlowSweepRepeats(limit);
      assert SameReminder(states[|events|].mails[0], states[|events|].mails[1]);
    }
  }

  /** A user whose password expires in the first second, and the two states around
      the reminder. */
  const Ann := User("ann", false, true, Some(1))
  const Before := State(0, 0, [1], map[], [])
  const After := State(0, 0, [1], map[MarkerKey(Mail("ann", 1, 1, 1000)) := Entry((), Some(1000 + DAY))], [Mail("ann", 1, 1, 1000)])

  lemma FirstReminder()
    ensures Visit(Before, Ann, Timing(0, 0, 0, true)) == After
  {
    assert FirstFit([1], 1000) == Some(1);
    assert MailFor([1], 0, Ann) == Some(Mail("ann", 1, 1, 1000));
  }

  lemma SecondReminder(s: State)
    requires s == After.(clock := 999, sweepNow := 999)
    ensures Visit(s, Ann, Timing(DAY + 1, 0, 0, true)).mails == [Mail("ann", 1, 1, 1000), Mail("ann", 1, 1, 1)]
  {
    assert FirstFit([1], 1) == Some(1);
    assert MailFor([1], 999, Ann) == Some(Mail("ann", 1, 1, 1));
    assert MarkerKey(Mail("ann", 1, 1, 1)) == MarkerKey(Mail("ann", 1, 1, 1000));
  }

  /** One sweep reminds a user of a password that expires in a second; the next
      begins a millisecond before that and takes a day and a millisecond. */
  lemma SlowSweepRepeats(limit: nat) returns (states: seq<State>, events: seq<Event>)
    requires limit > DAY
    ensures Run(limit, states, events) && |states[|events|].mails| == 2
    ensures SameReminder(states[|events|].mails[0], states[|events|].mails[1])
  {
    states, events := Extended(limit, [Init], [], Begin([1]));
    FirstReminder();
    states, events := Extended(limit, states, events, VisitUser(Ann, Timing(0, 0, 0, true)));
    states, events := Extended(limit, states, events, Elapse(999));
    states, events := Extended(limit, states, events, Begin([1]));
    SecondReminder(After.(clock := 999, sweepNow := 999));
    states, events := Extended(limit, states, events, VisitUser(Ann, Timing(DAY + 1, 0, 0, true)));
  }

  lemma Extended(limit: nat, states: seq<State>, events: seq<Event>, e: Event) returns (states': seq<State>, events': seq<Event>)
    requires Run(limit, states, events) && Enabled(limit, states[|events|], e)
    ensures Run(limit, states', events') && states'[|events'|] == Apply(states[|events|], e)
  {
    states', events' := states + [Apply(states[|events|], e)], events + [e];
  }
}
