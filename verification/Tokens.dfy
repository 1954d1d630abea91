/** Single-use e-mail tokens. The token format is foreign: `decode` stands for
    opening and authenticating a token string, and `lag` for the number of whole
    seconds after timestamp + max age at which the library starts to report the
    token as expired. Clock in milliseconds, token times in seconds. */
module Tokens {
  import opened Wrappers
  import opened Storage
  import opened Keys

  datatype Claims = Claims(username: string, email: string, timestamp: nat)

  datatype Config = Config(maxAge: nat, cooldown: nat, lag: nat, decode: string -> Option<Claims>)

  function Unix(ms: int): int { ms / 1000 }

  /** The instant at which the token's lifetime is over, in milliseconds. */
  function EndOfLife(cfg: Config, c: Claims): int {
    (c.timestamp + cfg.maxAge) * 1000
  }

  predicate IsExpired(cfg: Config, c: Claims, now: int) {
    Unix(now) >= c.timestamp + cfg.maxAge + cfg.lag
  }

  function Parsed(cfg: Config, c: Contents<()>, token: string, kind: Kind, now: int): Result<Claims> {
    if Alive(c, Render(Used(kind, token)), now) then Err
    else if cfg.decode(token).None? then Err
    else if IsExpired(cfg, cfg.decode(token).value, now) then Err
    else Ok(cfg.decode(token).value)
  }

  class Service {
    const cfg: Config
    const storage: Store<()>

    constructor (cfg: Config, storage: Store<()>)
      ensures this.cfg == cfg && this.storage == storage
    {
      this.cfg, this.storage := cfg, storage;
    }

    /** Issues a token unless one is outstanding; any storage error refuses. Making
        the token takes `delay`. */
    method NewToken(kind: Kind, name: string, token: string, delay: nat, readable: bool, writable: bool) returns (r: Result<string>)
      modifies storage`contents, storage`now
      ensures r.Ok? <==> readable && writable && !Alive(old(storage.contents), Render(Issued(kind, name)), old(storage.now))
      ensures r.Ok? ==> r.value == token && storage.now == old(storage.now) + delay
      ensures readable && Alive(old(storage.contents), Render(Issued(kind, name)), old(storage.now)) ==> storage.now == old(storage.now)
      ensures storage.contents == if r.Ok? then Put(old(storage.contents), Render(Issued(kind, name)), (), cfg.cooldown * 1000, storage.now)
                                  else old(storage.contents)
    {
      var issued := storage.Get(Render(Issued(kind, name)), readable);
      if issued.Err? || issued.value.Some? {
        return Err;
      }
      storage.Elapse(delay);
      var ok := storage.Set(Render(Issued(kind, name)), (), cfg.cooldown * 1000, writable);
      r := if ok then Ok(token) else Err;
    }

    /** Accepts exactly what Parsed accepts, and nothing after a storage error. */
    method ParseToken(token: string, kind: Kind, readable: bool) returns (r: Result<Claims>)
      ensures r == if readable then Parsed(cfg, storage.contents, token, kind, storage.now) else Err
      ensures r.Ok? ==> cfg.decode(token) == Some(r.value)
      ensures r.Ok? <==> (
        && readable && !Alive(storage.contents, Render(Used(kind, token)), storage.now)
        && cfg.decode(token).Some?
        && var c := cfg.decode(token).value; storage.now / 1000 < c.timestamp + cfg.maxAge + cfg.lag)
    {
      var used := storage.Get(Render(Used(kind, token)), readable);
      if used.Err? || used.value.Some? {
        return Err;
      }
      var claims := cfg.decode(token);
      if claims.None? {
        return Err;
      }
      if Unix(storage.now) >= claims.value.timestamp + cfg.maxAge + cfg.lag {
        return Err;
      }
      r := Ok(claims.value);
    }

    /** The TTL is computed first and the marker written `delay` later: it lasts to
        the end of the token's life and `delay` beyond, forever if that end is now. */
    method MarkTokenUsed(token: string, kind: Kind, claims: Claims, delay: nat, writable: bool) returns (ok: bool)
      modifies storage`contents, storage`now
      ensures storage.now == old(storage.now) + delay && ok == writable
      ensures ok ==> Marked(cfg, storage.contents, kind, token, claims)
      ensures var end := EndOfLife(cfg, claims);
        storage.contents ==
        if ok then old(storage.contents)[Render(Used(kind, token)) := Entry((), if end == old(storage.now) then None else Some(end + delay))]
        else old(storage.contents)
      ensures ok && cfg.decode(token) == Some(claims) ==> forall mails: seq<Mail> ::
        Apply(cfg, State(old(storage.now), old(storage.contents), mails), Mark(kind, token, delay)) == State(storage.now, storage.contents, mails)
    {
      var ttl := EndOfLife(cfg, claims) - storage.now;
      storage.Elapse(delay);
      ok := storage.Set(Render(Used(kind, token)), (), ttl, writable);
    }

    /** Delivers a mail carrying a token and rolls the issued marker back when
        delivery fails. */
    method SendTokenEmail(kind: Kind, name: string, delivered: bool, writable: bool) returns (ok: bool)
      modifies storage`contents
      ensures ok == delivered
      ensures storage.contents ==
              if !delivered && writable then old(storage.contents) - {Render(Issued(kind, name))} else old(storage.contents)
    {
      ok := delivered;
      if !delivered {
        var _ := storage.Delete(Render(Issued(kind, name)), writable);
      }
    }

    /** One request for a token mail, from the issue check to the rollback: the
        step Request of the runs below. */
    method RequestMail(kind: Kind, name: string, token: string, toIssue: nat, toSend: nat, delivered: bool, writable: bool) returns (sent: bool)
      modifies storage`contents, storage`now
      ensures forall mails: seq<Mail> ::
        var after := Apply(cfg, State(old(storage.now), old(storage.contents), mails), Request(kind, name, toIssue, toSend, delivered, writable));
        && storage.now == after.now && storage.contents == after.contents
        && after.mails == if sent then mails + [Mail(kind, name, old(storage.now) + toIssue, storage.now)] else mails
    {
      sent := false;
      var issued := NewToken(kind, name, token, toIssue, true, true);
      if issued.Ok? {
        storage.Elapse(toSend);
        sent := SendTokenEmail(kind, name, delivered, writable);
      }
    }
  }

  // ---- Runs over the shared store ----

  /** A token mail: the issued marker was written at `issued`, the mail went out
      at `sent`. */
  datatype Mail = Mail(kind: Kind, name: string, issued: int, sent: int)

  datatype State = State(now: int, contents: Contents<()>, mails: seq<Mail>)

  const Init := State(0, map[], [])

  /** Token requests are handled one at a time. Other components write other keys. */
  datatype Event =
    | Elapse(ms: nat)
    | Request(kind: Kind, name: string, toIssue: nat, toSend: nat, delivered: bool, rolledBack: bool)
    | Mark(kind: Kind, token: string, delay: nat)
    | Release(name: string)
    | Foreign(key: Key, ttl: int, put: bool)

  predicate Enabled(cfg: Config, s: State, e: Event) {
    match e
    case Mark(_, token, _) => cfg.decode(token).Some?
    case Foreign(key, _, _) => !key.Issued? && !key.Used?
    case _ => true
  }

  function Apply(cfg: Config, s: State, e: Event): State
    requires Enabled(cfg, s, e)
  {
    match e
    case Elapse(ms) => s.(now := s.now + ms)
    case Request(kind, name, toIssue, toSend, delivered, rolledBack) =>
      var key, issued, sent := Render(Issued(kind, name)), s.now + toIssue, s.now + toIssue + toSend;
      var c := Put(s.contents, key, (), cfg.cooldown * 1000, issued);
      if Alive(s.contents, key, s.now) then s
      else if delivered then State(sent, c, s.mails + [Mail(kind, name, issued, sent)])
      else State(sent, if rolledBack then c - {key} else c, s.mails)
    case Mark(kind, token, delay) =>
      var ttl := EndOfLife(cfg, cfg.decode(token).value) - s.now;
      s.(now := s.now + delay, contents := Put(s.contents, Render(Used(kind, token)), (), ttl, s.now + delay))
    case Release(name) => s.(contents := s.contents - {Render(Issued(OTPRecovery, name))})
    case Foreign(key, ttl, put) =>
      s.(contents := if put then Put(s.contents, Render(key), (), ttl, s.now) else s.contents - {Render(key)})
  }

  predicate Run(cfg: Config, states: seq<State>, events: seq<Event>) {
    && |states| == |events| + 1
    && states[0] == Init
    && forall i :: 0 <= i < |events| ==> Enabled(cfg, states[i], events[i]) && states[i + 1] == Apply(cfg, states[i], events[i])
  }

  /** Other components may store or delete any entry that is not a token marker. */
  lemma OthersWriteAnyTime(cfg: Config, s: State, key: Key, ttl: int)
    requires !key.Issued? && !key.Used?
    ensures Enabled(cfg, s, Foreign(key, ttl, true)) && Enabled(cfg, s, Foreign(key, ttl, false))
    ensures Apply(cfg, s, Foreign(key, ttl, true)) ==
      s.(contents := s.contents[Render(key) := Entry((), if ttl == 0 then None else Some(s.now + ttl))])
    ensures Apply(cfg, s, Foreign(key, ttl, false)) == s.(contents := s.contents - {Render(key)})
  {
  }

  /** The only key an event may write. */
  function Written(e: Event): Option<Key> {
    match e
    case Elapse(_) => None
    case Request(kind, name, _, _, _, _) => Some(Issued(kind, name))
    case Mark(kind, token, _) => Some(Used(kind, token))
    case Release(name) => Some(Issued(OTPRecovery, name))
    case Foreign(key, _, _) => Some(key)
  }

  /** Components do not disturb each other's entries. */
  lemma OtherKeysUntouched(cfg: Config, s: State, e: Event, key: Key)
    requires Enabled(cfg, s, e) && Written(e) != Some(key)
    ensures var c := Apply(cfg, s, e).contents;
      (Render(key) in c <==> Render(key) in s.contents) && (Render(key) in c ==> c[Render(key)] == s.contents[Render(key)])
  {
    if Written(e).Some? {
      var written := Written(e).value;
      if Render(key) == Render(written) {
        RenderInjective(key, written);
      }
    }
  }

  // ---- Single use ----

  /** A used marker that covers the rest of the token's lifetime. */
  ghost predicate Marked(cfg: Config, c: Contents<()>, kind: Kind, token: string, claims: Claims) {
    && Render(Used(kind, token)) in c
    && (c[Render(Used(kind, token))].deadline.Some? ==> EndOfLife(cfg, claims) <= c[Render(Used(kind, token))].deadline.value)
  }

  lemma StepKeepsMarked(cfg: Config, s: State, e: Event, kind: Kind, token: string)
    requires Enabled(cfg, s, e) && cfg.decode(token).Some? && Marked(cfg, s.contents, kind, token, cfg.decode(token).value)
    ensures Marked(cfg, Apply(cfg, s, e).contents, kind, token, cfg.decode(token).value)
  {
    var key := Used(kind, token);
    if Written(e) == Some(key) {
      assert e == Mark(kind, token, e.delay);
    } else {
      OtherKeysUntouched(cfg, s, e, key);
    }
  }

  lemma {:induction false} MarkedStays(cfg: Config, states: seq<State>, events: seq<Event>, i: nat, j: nat)
    requires Run(cfg, states, events) && i < j <= |events| && events[i].Mark?
    ensures Marked(cfg, states[j].contents, events[i].kind, events[i].token, cfg.decode(events[i].token).value)
  {
    if j > i + 1 {
      MarkedStays(cfg, states, events, i, j - 1);
      StepKeepsMarked(cfg, states[j - 1], events[j - 1], events[i].kind, events[i].token);
    }
  }

  /** A token marked used for a purpose is refused for that purpose at every later
      time of every run: the marker covers exactly the time until expiry takes over. */
  lemma {:induction false} NeverAcceptedAgain(cfg: Config, states: seq<State>, events: seq<Event>, i: nat, j: nat)
    requires Run(cfg, states, events) && i < j <= |events| && events[i].Mark? && cfg.lag == 0
    ensures Parsed(cfg, states[j].contents, events[i].token, events[i].kind, states[j].now).Err?
  {
    MarkedStays(cfg, states, events, i, j);
  }

  lemma {:induction false} UnmarkedStaysClear(cfg: Config, states: seq<State>, events: seq<Event>, n: nat, kind: Kind, token: string)
    requires Run(cfg, states, events) && n <= |events|
    requires forall i :: 0 <= i < n && events[i].Mark? ==> !(events[i].kind == kind && events[i].token == token)
    ensures Render(Used(kind, token)) !in states[n].contents
  {
    if n > 0 {
      UnmarkedStaysClear(cfg, states, events, n - 1, kind, token);
      OtherKeysUntouched(cfg, states[n - 1], events[n - 1], Used(kind, token));
    }
  }

  /** In every run and at every time a token is accepted for a purpose if and only
      if it is genuine, has not reached the end of its life, and was not marked
      used for that very purpose; what is accepted is what the token carries. */
  lemma {:induction false} AcceptedIff(cfg: Config, states: seq<State>, events: seq<Event>, n: nat, kind: Kind, token: string)
    requires Run(cfg, states, events) && n <= |events| && cfg.lag == 0
    ensures Parsed(cfg, states[n].contents, token, kind, states[n].now).Ok? <==>
      && cfg.decode(token).Some?
      && states[n].now < (cfg.decode(token).value.timestamp + cfg.maxAge) * 1000
      && (forall i :: 0 <= i < n && events[i].Mark? ==> !(events[i].kind == kind && events[i].token == token))
    ensures var r := Parsed(cfg, states[n].contents, token, kind, states[n].now); r.Ok? ==> cfg.decode(token) == Some(r.value)
  {
    if exists i :: 0 <= i < n && events[i].Mark? && events[i].kind == kind && events[i].token == token {
      var i :| 0 <= i < n && events[i].Mark? && events[i].kind == kind && events[i].token == token;
      NeverAcceptedAgain(cfg, states, events, i, n);
    } else {
      UnmarkedStaysClear(cfg, states, events, n, kind, token);
    }
  }

  /** There is no slack: if the library reported expiry even one second late, the
      marker of an instantly marked token would be gone before. */
  lemma LateExpiryReopens(cfg: Config, kind: Kind, token: string, c: Contents<()>, now: int)
    requires cfg.decode(token).Some? && cfg.lag > 0 && now < EndOfLife(cfg, cfg.decode(token).value)
    ensures var end := EndOfLife(cfg, cfg.decode(token).value);
      Parsed(cfg, Put(c, Render(Used(kind, token)), (), end - now, now), token, kind, end).Ok?
  {
  }

  // ---- Resend cooldown ----

  /** The marker of a delivered mail still blocks, or its cooldown is over. */
  ghost predicate Blocking(cfg: Config, s: State, m: Mail) {
    || m.issued + cfg.cooldown * 1000 <= s.now
    || (Render(Issued(m.kind, m.name)) in s.contents &&
        s.contents[Render(Issued(m.kind, m.name))].deadline == Some(m.issued + cfg.cooldown * 1000))
  }

  ghost predicate Cooling(cfg: Config, s: State) {
    && (forall i :: 0 <= i < |s.mails| && s.mails[i].kind != OTPRecovery ==> Blocking(cfg, s, s.mails[i]))
    && (forall i :: 0 <= i < |s.mails| ==> s.mails[i].issued <= s.mails[i].sent <= s.now)
  }

  ghost predicate Spaced(cfg: Config, mails: seq<Mail>) {
    forall i, j :: 0 <= i < j < |mails| && mails[i].kind == mails[j].kind != OTPRecovery && mails[i].name == mails[j].name ==>
      mails[i].issued + cfg.cooldown * 1000 <= mails[j].issued
  }

  lemma StepKeepsBlocking(cfg: Config, s: State, e: Event, m: Mail)
    requires cfg.cooldown > 0 && Enabled(cfg, s, e) && Blocking(cfg, s, m) && m.kind != OTPRecovery
    ensures Blocking(cfg, Apply(cfg, s, e), m)
  {
    var key := Issued(m.kind, m.name);
    if Written(e) != Some(key) {
      OtherKeysUntouched(cfg, s, e, key);
    }
  }

  lemma StepKeepsCooling(cfg: Config, s: State, e: Event)
    requires cfg.cooldown > 0 && Enabled(cfg, s, e) && Cooling(cfg, s) && Spaced(cfg, s.mails)
    ensures Cooling(cfg, Apply(cfg, s, e)) && Spaced(cfg, Apply(cfg, s, e).mails)
  {
    var s' := Apply(cfg, s, e);
    forall i | 0 <= i < |s'.mails| && s'.mails[i].kind != OTPRecovery ensures Blocking(cfg, s', s'.mails[i]) {
      if i < |s.mails| {
        StepKeepsBlocking(cfg, s, e, s.mails[i]);
      }
    }
    if |s'.mails| > |s.mails| {
      forall i | 0 <= i < |s.mails| && s.mails[i].kind == e.kind != OTPRecovery && s.mails[i].name == e.name
        ensures s.mails[i].issued + cfg.cooldown * 1000 <= s'.mails[|s.mails|].issued
      {
        assert Blocking(cfg, s, s.mails[i]);
      }
    }
  }

  lemma {:induction false} RunKeepsCooling(cfg: Config, states: seq<State>, events: seq<Event>, i: nat)
    requires cfg.cooldown > 0 && Run(cfg, states, events) && i <= |events|
    ensures Cooling(cfg, states[i]) && Spaced(cfg, states[i].mails)
  {
    if i > 0 {
      RunKeepsCooling(cfg, states, events, i - 1);
      StepKeepsCooling(cfg, states[i - 1], events[i - 1]);
    }
  }

  /** Two mails of one kind to one name are issued at least the cooldown apart, and
      leave at least the cooldown apart up to the time the first one took. */
  lemma {:induction false} MailsKeepCooldown(cfg: Config, states: seq<State>, events: seq<Event>, i: nat, j: nat)
    requires cfg.cooldown > 0 && Run(cfg, states, events) && i < j < |states[|events|].mails|
    requires var m := states[|events|].mails; m[i].kind == m[j].kind != OTPRecovery && m[i].name == m[j].name
    ensures var m := states[|events|].mails;
      && m[j].issued >= m[i].issued + cfg.cooldown * 1000
      && m[j].sent - m[i].sent >= cfg.cooldown * 1000 - (m[i].sent - m[i].issued)
  {
    RunKeepsCooling(cfg, states, events, |events|);
  }

  /** Measured at delivery the cooldown is not kept: the marker counts from before
      the mail is handed over. */
  lemma SlowDeliveryShortensGap(cfg: Config, name: string, slow: nat)
    requires 0 < slow <= cfg.cooldown * 1000
    ensures
      var s1 := Apply(cfg, Init, Request(AccountVerify, name, 0, slow, true, false));
      var s2 := Apply(cfg, s1, Elapse(cfg.cooldown * 1000 - slow));
      var s3 := Apply(cfg, s2, Request(AccountVerify, name, 0, 0, true, false));
      |s3.mails| == 2 && s3.mails[1].sent - s3.mails[0].sent == cfg.cooldown * 1000 - slow
  {
  }

  /** The request at step `i` failed to deliver, and its rollback failed as well. */
  predicate LeftMarker(e: Event, kind: Kind, name: string) {
    e.Request? && e.kind == kind && e.name == name && !e.delivered && !e.rolledBack
  }

  /** The deadline comes from a delivered mail, or from a request whose delivery and
      rollback both failed. */
  ghost predicate Accounted(cfg: Config, states: seq<State>, events: seq<Event>, n: nat, kind: Kind, name: string, deadline: int)
    requires n <= |events| < |states|
  {
    || (exists i :: 0 <= i < |states[n].mails| && states[n].mails[i].kind == kind && states[n].mails[i].name == name &&
          deadline == states[n].mails[i].issued + cfg.cooldown * 1000)
    || (exists i :: 0 <= i < n && LeftMarker(events[i], kind, name) &&
          deadline == states[i].now + events[i].toIssue + cfg.cooldown * 1000)
  }

  lemma AccountedLater(cfg: Config, states: seq<State>, events: seq<Event>, n: nat, kind: Kind, name: string, deadline: int)
    requires Run(cfg, states, events) && 0 < n <= |events| && Accounted(cfg, states, events, n - 1, kind, name, deadline)
    ensures Accounted(cfg, states, events, n, kind, name, deadline)
  {
    var m, m' := states[n - 1].mails, states[n].mails;
    if exists i :: 0 <= i < |m| && m[i].kind == kind && m[i].name == name && deadline == m[i].issued + cfg.cooldown * 1000 {
      var i :| 0 <= i < |m| && m[i].kind == kind && m[i].name == name && deadline == m[i].issued + cfg.cooldown * 1000;
      assert m'[i] == m[i];
    }
  }

  lemma {:induction false} MarkersAccounted(cfg: Config, states: seq<State>, events: seq<Event>, n: nat, kind: Kind, name: string)
    requires cfg.cooldown > 0 && Run(cfg, states, events) && n <= |events| && Render(Issued(kind, name)) in states[n].contents
    ensures var deadline := states[n].contents[Render(Issued(kind, name))].deadline;
      deadline.Some? && Accounted(cfg, states, events, n, kind, name, deadline.value)
  {
    var s, s', e, key := states[n - 1], states[n], events[n - 1], Issued(kind, name);
    if Written(e) != Some(key) {
      OtherKeysUntouched(cfg, s, e, key);
      MarkersAccounted(cfg, states, events, n - 1, kind, name);
      AccountedLater(cfg, states, events, n, kind, name, s.contents[Render(key)].deadline.value);
    } else if Alive(s.contents, Render(key), s.now) {
      MarkersAccounted(cfg, states, events, n - 1, kind, name);
      AccountedLater(cfg, states, events, n, kind, name, s.contents[Render(key)].deadline.value);
    } else if e.delivered {
      assert s'.mails[|s.mails|] == Mail(kind, name, s.now + e.toIssue, s'.now);
    } else {
      assert LeftMarker(events[n - 1], kind, name);
    }
  }

  /** A failed delivery blocks nobody once it is rolled back: in every run a request
      is refused only inside the cooldown of a delivered mail of that kind to that
      name, or of one whose delivery and rollback both failed. */
  lemma {:induction false} BlockedOnlyByMailOrFailedRollback(cfg: Config, states: seq<State>, events: seq<Event>, n: nat, kind: Kind, name: string)
    requires cfg.cooldown > 0 && Run(cfg, states, events) && n <= |events|
    requires Alive(states[n].contents, Render(Issued(kind, name)), states[n].now)
    ensures
      || (exists i :: 0 <= i < |states[n].mails| && states[n].mails[i].kind == kind && states[n].mails[i].name == name &&
            states[n].now < states[n].mails[i].issued + cfg.cooldown * 1000)
      || (exists i :: 0 <= i < n && LeftMarker(events[i], kind, name) &&
            states[n].now < states[i].now + events[i].toIssue + cfg.cooldown * 1000)
  {
    MarkersAccounted(cfg, states, events, n, kind, name);
  }
}
