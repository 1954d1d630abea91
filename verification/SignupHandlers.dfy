/** The signup handlers as they run one at a time against the directory, where any
    call may be refused, or take effect and be reported as failed; the outcome of
    every call is an argument. Each is proved equal to the run of its phases in
    SignupProtocol.dfy, where their interleavings are. */
module SignupHandlers {
  import opened Wrappers
  import opened Seqs
  import opened SignupProtocol

  datatype StagedUser = StagedUser(username: string, category: Category)

  /** The two trees, and the number of signups so far. */
  datatype Trees = Trees(staged: map<string, Entry>, active: map<string, Account>, signups: nat)

  function TreesOf(s: State): Trees {
    Trees(s.staged, s.active, s.signups)
  }

  // ---- What each handler leaves behind ----

  /** A name taken in either tree is refused, as far as the active tree can be read. */
  predicate Free(d: Trees, u: string, shown: bool) {
    u !in d.staged && !(shown && u in d.active)
  }

  function AfterCreate(d: Trees, u: string, shown: bool, add: Outcome): Trees {
    if Free(d, u, shown) && !add.Refused? then Trees(d.staged[u := Entry(d.signups, Unverified)], d.active, d.signups + 1) else d
  }

  /** Clearing and activating, in this order: the entry arrives itself and with an
      empty category, or is not activated at all and at most cleared. */
  function AfterMove(d: Trees, u: string, clear: Outcome, activate: Outcome): Trees
    requires u in d.staged
  {
    if clear.Refused? then d
    else if clear.Done? && u !in d.active && !activate.Refused? then
      Trees(d.staged - {u}, d.active[u := Account(Empty, false, SelfSignup(d.staged[u].id))], d.signups)
    else d.(staged := d.staged[u := Entry(d.staged[u].id, Empty)])
  }

  predicate Arrives(d: Trees, u: string, clear: Outcome, activate: Outcome) {
    clear.Done? && u !in d.active && activate.Done?
  }

  /** With approval an unverified entry becomes pending; otherwise the entry moves. */
  function AfterVerify(admin: bool, d: Trees, u: string, category: Category, update: Outcome, activate: Outcome): Trees {
    if u !in d.staged then d
    else if !admin then AfterMove(d, u, update, activate)
    else if category == Unverified && !update.Refused? then d.(staged := d.staged[u := Entry(d.staged[u].id, Pending)])
    else d
  }

  /** Whether a verification of the staged entry reports success. */
  predicate VerifyWorks(admin: bool, d: Trees, u: string, category: Category, update: Outcome, activate: Outcome) {
    if admin then category != Unverified || (u in d.staged && update.Done?)
    else u in d.staged && Arrives(d, u, update, activate)
  }

  /** Whether one of a legacy account does. */
  predicate LegacyVerifyWorks(admin: bool, d: Trees, u: string, shown: bool, enable: Outcome, mod: Outcome) {
    shown && u in d.active && (d.active[u].locked && !admin ==> enable.Done?) && (d.active[u].category == Unverified ==> mod.Done?)
  }

  /** Without approval a disabled account is enabled first; an unverified category is
      changed only when that worked. */
  function AfterLegacyVerify(admin: bool, d: Trees, u: string, shown: bool, enable: Outcome, mod: Outcome): Trees {
    if !(shown && u in d.active) then d
    else
      var a := d.active[u];
      var enables := a.locked && !admin;
      d.(active := d.active[u := Account(
           if a.category == Unverified && (enables ==> enable.Done?) && !mod.Refused? then (if admin then Pending else Empty) else a.category,
           a.locked && !(enables && !enable.Refused?), a.origin)])
  }

  predicate PendingAccount(d: Trees, u: string, shown: bool) {
    shown && u in d.active && d.active[u].category == Pending
  }

  /** A pending account of the legacy backend is enabled and then cleared. */
  function AfterLegacyApprove(d: Trees, u: string, shown: bool, enable: Outcome, mod: Outcome): Trees {
    if !PendingAccount(d, u, shown) || enable.Refused? then d
    else if enable.Done? && !mod.Refused? then d.(active := d.active[u := d.active[u].(locked := false, category := Empty)])
    else d.(active := d.active[u := d.active[u].(locked := false)])
  }

  /** Only a pending entry moves; without an entry the legacy backend is tried. */
  function AfterApprove(d: Trees, u: string, shown: bool, clear: Outcome, activate: Outcome, legacyShown: bool, enable: Outcome, mod: Outcome): Trees {
    if !(shown && u in d.staged) then AfterLegacyApprove(d, u, legacyShown, enable, mod)
    else if d.staged[u].category == Pending then AfterMove(d, u, clear, activate)
    else d
  }

  function AfterLegacyDeny(d: Trees, u: string, shown: bool, del: Outcome): Trees {
    if PendingAccount(d, u, shown) && !del.Refused? then d.(active := d.active - {u}) else d
  }

  /** Denial deletes what is pending, from the tree it was found in, and nothing else. */
  function AfterDeny(d: Trees, u: string, shown: bool, del: Outcome, legacyShown: bool, legacyDel: Outcome): Trees {
    if !(shown && u in d.staged) then AfterLegacyDeny(d, u, legacyShown, legacyDel)
    else if d.staged[u].category == Pending && !del.Refused? then d.(staged := d.staged - {u})
    else d
  }

  class Directory {
    var staged: map<string, Entry>
    var active: map<string, Account>
    var signups: nat

    constructor ()
      ensures Contents() == Trees(map[], map[], 0)
    {
      staged, active, signups := map[], map[], 0;
    }

    ghost function Contents(): Trees
      reads this
    {
      Trees(staged, active, signups)
    }

    method UserShow(user: string, works: bool) returns (r: Option<Account>)
      ensures r == if works && user in active then Some(active[user]) else None
    {
      r := if works && user in active then Some(active[user]) else None;
    }

    method StageUserShow(user: string, works: bool) returns (r: Option<Entry>)
      ensures r == if works && user in staged then Some(staged[user]) else None
    {
      r := if works && user in staged then Some(staged[user]) else None;
    }

    method StageUserAdd(user: string, o: Outcome) returns (ok: bool)
      modifies this
      ensures ok == (user !in old(staged) && o.Done?)
      ensures Contents() == AfterCreate(old(Contents()), user, false, o)
    {
      ok := user !in staged && o.Done?;
      if user !in staged && !o.Refused? {
        staged, signups := staged[user := Entry(signups, Unverified)], signups + 1;
      }
    }

    method StageUserSetCategory(user: string, category: Category, o: Outcome) returns (ok: bool)
      modifies this`staged
      ensures ok == (user in old(staged) && o.Done?)
      ensures staged == if user in old(staged) && !o.Refused? then old(staged)[user := Entry(old(staged)[user].id, category)] else old(staged)
    {
      ok := user in staged && o.Done?;
      if user in staged && !o.Refused? {
        staged := staged[user := staged[user].(category := category)];
      }
    }

    method StageUserActivate(user: string, o: Outcome) returns (ok: bool)
      modifies this`staged, this`active
      ensures ok == (user in old(staged) && user !in old(active) && o.Done?)
      ensures var moves := user in old(staged) && user !in old(active) && !o.Refused?;
        && staged == (if moves then old(staged) - {user} else old(staged))
        && active == if moves then old(active)[user := Account(old(staged)[user].category, false, SelfSignup(old(staged)[user].id))] else old(active)
    {
      ok := user in staged && user !in active && o.Done?;
      if user in staged && user !in active && !o.Refused? {
        active, staged := active[user := Account(staged[user].category, false, SelfSignup(staged[user].id))], staged - {user};
      }
    }

    method StageUserDel(user: string, o: Outcome) returns (ok: bool)
      modifies this`staged
      ensures ok == (user in old(staged) && o.Done?)
      ensures staged == if o.Refused? then old(staged) else old(staged) - {user}
    {
      ok := user in staged && o.Done?;
      if user in staged && !o.Refused? {
        staged := staged - {user};
      }
    }

    method UserEnable(user: string, o: Outcome) returns (ok: bool)
      modifies this`active
      ensures ok == (user in old(active) && o.Done?)
      ensures active == if user in old(active) && !o.Refused? then old(active)[user := old(active)[user].(locked := false)] else old(active)
    {
      ok := user in active && o.Done?;
      if user in active && !o.Refused? {
        active := active[user := active[user].(locked := false)];
      }
    }

    method UserMod(user: string, category: Category, o: Outcome) returns (ok: bool)
      modifies this`active
      ensures ok == (user in old(active) && o.Done?)
      ensures active == if user in old(active) && !o.Refused? then old(active)[user := old(active)[user].(category := category)] else old(active)
    {
      ok := user in active && o.Done?;
      if user in active && !o.Refused? {
        active := active[user := active[user].(category := category)];
      }
    }

    method UserDelete(user: string, o: Outcome) returns (ok: bool)
      modifies this`active
      ensures ok == (user in old(active) && o.Done?)
      ensures active == if o.Refused? then old(active) else old(active) - {user}
    {
      ok := user in active && o.Done?;
      if user in active && !o.Refused? {
        active := active - {user};
      }
    }

    method StagedAccountCreate(user: string, shown: bool, add: Outcome) returns (ok: bool)
      modifies this
      ensures ok == (Free(old(Contents()), user, shown) && add.Done?)
      ensures Contents() == AfterCreate(old(Contents()), user, shown, add)
      ensures ok ==> (
        && user !in old(staged)
        && (shown ==> user !in old(active))
        && Contents() == Trees(old(staged)[user := Entry(old(signups), Unverified)], old(active), old(signups) + 1))
      ensures add.Refused? || user in old(staged) || (shown && user in old(active)) ==> !ok && Contents() == old(Contents())
    {
      var existing := UserShow(user, shown);
      if existing.Some? {
        return false;
      }
      ok := StageUserAdd(user, add);
    }

    /** Finishes e-mail verification of a staged entry in which `category` was read. */
    method VerifyStagedUser(admin: bool, user: string, category: Category, update: Outcome, activate: Outcome) returns (ok: bool)
      modifies this
      ensures ok == VerifyWorks(admin, old(Contents()), user, category, update, activate)
      ensures Contents() == AfterVerify(admin, old(Contents()), user, category, update, activate)
      ensures ok && admin ==> (
        && active == old(active)
        && (user in old(staged) ==> staged == if category == Unverified then old(staged)[user := Entry(old(staged)[user].id, Pending)] else old(staged)))
      ensures ok && !admin ==> (
        && user in old(staged)
        && user !in old(active)
        && staged == old(staged) - {user}
        && active == old(active)[user := Account(Empty, false, SelfSignup(old(staged)[user].id))])
    {
      if admin {
        if category == Unverified {
          ok := StageUserSetCategory(user, Pending, update);
          return;
        }
        return true;
      }
      ok := ClearAndActivate(user, update, activate);
    }

    /** The two calls that both a verification and an approval end with. */
    method ClearAndActivate(user: string, clear: Outcome, activate: Outcome) returns (ok: bool)
      modifies this`staged, this`active
      ensures ok == (user in old(staged) && Arrives(old(Contents()), user, clear, activate))
      ensures Contents() == if user in old(staged) then AfterMove(old(Contents()), user, clear, activate) else old(Contents())
      ensures ok ==> (
        && user in old(staged)
        && user !in old(active)
        && staged == old(staged) - {user}
        && active == old(active)[user := Account(Empty, false, SelfSignup(old(staged)[user].id))])
      ensures clear.Refused? ==> !ok && Contents() == old(Contents())
      ensures user in staged && !clear.Refused? ==> !ok && staged == old(staged)[user := Entry(old(staged)[user].id, Empty)] && active == old(active)
    {
      ok := StageUserSetCategory(user, Empty, clear);
      if ok {
        ok := StageUserActivate(user, activate);
      }
    }

    /** Verification against the disabled-until-verified backend. */
    method VerifyLegacyUser(admin: bool, user: string, shown: bool, enable: Outcome, mod: Outcome) returns (ok: bool)
      modifies this
      ensures Contents() == AfterLegacyVerify(admin, old(Contents()), user, shown, enable, mod)
      ensures ok == LegacyVerifyWorks(admin, old(Contents()), user, shown, enable, mod)
      ensures staged == old(staged)
      ensures ok ==> var a := old(active)[user];
        active == old(active)[user := Account(if a.category != Unverified then a.category else if admin then Pending else Empty,
                                              a.locked && admin, a.origin)]
    {
      var found := UserShow(user, shown);
      if found.None? {
        return false;
      }
      if found.value.locked && !admin {
        ok := UserEnable(user, enable);
        if !ok {
          return false;
        }
      }
      if found.value.category == Unverified {
        ok := UserMod(user, if admin then Pending else Empty, mod);
        return;
      }
      ok := true;
    }

    method Approve(user: string, shown: bool, clear: Outcome, activate: Outcome, legacyShown: bool, enable: Outcome, mod: Outcome)
      returns (ok: bool)
      modifies this
      ensures ok == if shown && user in old(staged) then old(staged)[user].category == Pending && Arrives(old(Contents()), user, clear, activate)
                    else PendingAccount(old(Contents()), user, legacyShown) && enable.Done? && mod.Done?
      ensures Contents() == AfterApprove(old(Contents()), user, shown, clear, activate, legacyShown, enable, mod)
      ensures ok && shown && user in old(staged) ==> (
        && old(staged)[user].category == Pending
        && user !in old(active)
        && staged == old(staged) - {user} && active == old(active)[user := Account(Empty, false, SelfSignup(old(staged)[user].id))])
      ensures ok && !(shown && user in old(staged)) ==> (
        && user in old(active)
        && old(active)[user].category == Pending
        && staged == old(staged) && active == old(active)[user := Account(Empty, false, old(active)[user].origin)])
    {
      var found := StageUserShow(user, shown);
      if found.Some? {
        if found.value.category != Pending {
          return false;
        }
        ok := ClearAndActivate(user, clear, activate);
        return;
      }
      ok := ApproveLegacy(user, legacyShown, enable, mod);
    }

    method ApproveLegacy(user: string, shown: bool, enable: Outcome, mod: Outcome) returns (ok: bool)
      modifies this`active
      ensures ok == (PendingAccount(old(Contents()), user, shown) && enable.Done? && mod.Done?)
      ensures Contents() == AfterLegacyApprove(old(Contents()), user, shown, enable, mod)
    {
      var target := UserShow(user, shown);
      ok := target.Some? && target.value.category == Pending;
      if ok {
        ok := UserEnable(user, enable);
      }
      if ok {
        ok := UserMod(user, Empty, mod);
      }
    }

    method Deny(user: string, shown: bool, del: Outcome, legacyShown: bool, legacyDel: Outcome) returns (ok: bool)
      modifies this
      ensures ok == if shown && user in old(staged) then old(staged)[user].category == Pending && del.Done?
                    else PendingAccount(old(Contents()), user, legacyShown) && legacyDel.Done?
      ensures Contents() == AfterDeny(old(Contents()), user, shown, del, legacyShown, legacyDel)
      ensures ok && shown && user in old(staged) ==> (
        && old(staged)[user].category == Pending
        && staged == old(staged) - {user} && active == old(active))
      ensures ok && !(shown && user in old(staged)) ==> (
        && user in old(active)
        && old(active)[user].category == Pending
        && staged == old(staged) && active == old(active) - {user})
    {
      var found := StageUserShow(user, shown);
      if found.Some? {
        if found.value.category != Pending {
          return false;
        }
        ok := StageUserDel(user, del);
        return;
      }
      var target := UserShow(user, legacyShown);
      ok := target.Some? && target.value.category == Pending;
      if ok {
        ok := UserDelete(user, legacyDel);
      }
    }
  }

  // ---- The handlers as runs of the protocol ----

  /** The next call of handler 0, if it has one to make. */
  function Then(admin: bool, s: State, o: Outcome): State {
    if 0 in s.handlers && !s.handlers[0].Finished? then CallApplied(admin, s, 0, o) else s
  }

  function Answer(works: bool): Outcome {
    if works then Done else Refused
  }

  predicate At(s: State, p: Phase) {
    0 in s.handlers && s.handlers[0] == p
  }

  /** Such calls make up a run. */
  lemma ThenIsStep(admin: bool, s0: State, s: State, o: Outcome)
    requires CanReach(admin, s0, s)
    ensures CanReach(admin, s0, Then(admin, s, o))
  {
    if 0 in s.handlers && !s.handlers[0].Finished? {
      var s' := ReachStep(admin, s0, s, Call(0, o));
    }
  }

  /** A handler that is through makes no further call. */
  lemma ThroughIsIdle(admin: bool, s: State, o: Outcome)
    requires At(s, Finished)
    ensures Then(admin, s, o) == s
  {
  }

  /** What a handler has done to the trees and the links, and what it does next. */
  predicate Left(s: State, d: Trees, links: seq<Link>, next: Phase) {
    TreesOf(s) == d && s.links == links && At(s, next)
  }

  /** Clearing and activating, by a verification or an approval. */
  lemma MovePlayed(admin: bool, s: State, u: string, clear: Outcome, activate: Outcome)
    requires 0 in s.handlers && (s.handlers[0].ApproveClear? || s.handlers[0].VerifyClear?) && s.handlers[0].user == u && u in s.staged
    ensures Left(Then(admin, Then(admin, s, clear), activate), AfterMove(TreesOf(s), u, clear, activate), s.links,
                 if s.handlers[0].VerifyClear? && Arrives(TreesOf(s), u, clear, activate) then Retire(u, s.handlers[0].link) else Finished)
  {
    var s1 := Then(admin, s, clear);
    if clear.Done? {
      ActivatePlayed(admin, s1, u, activate);
      assert s1.staged - {u} == s.staged - {u};
    } else {
      ThroughIsIdle(admin, s1, activate);
    }
  }

  lemma ActivatePlayed(admin: bool, s: State, u: string, activate: Outcome)
    requires 0 in s.handlers && Activating(s.handlers[0]) && s.handlers[0].user == u && u in s.staged
    ensures Left(Then(admin, s, activate),
      if u in s.active || activate.Refused? then TreesOf(s)
      else Trees(s.staged - {u}, s.active[u := Account(s.staged[u].category, false, SelfSignup(s.staged[u].id))], s.signups),
      s.links, if s.handlers[0].VerifyActivate? && u !in s.active && activate.Done? then Retire(u, s.handlers[0].link) else Finished)
  {
  }

  /** A signup that works is followed by a mail with a link of its own, which a failed
      mailer loses. */
  lemma CreatePlayed(admin: bool, s: State, u: string, shown: bool, add: Outcome, mail: Outcome)
    requires At(s, SignupShow(u))
    ensures Left(Then(admin, Then(admin, Then(admin, s, Answer(shown)), add), mail), AfterCreate(TreesOf(s), u, shown, add),
                 if Free(TreesOf(s), u, shown) && add.Done? && !mail.Refused? then s.links + [Link(u, Some(s.signups), true)] else s.links,
                 Finished)
  {
    var s1 := Then(admin, s, Answer(shown));
    SignupShown(admin, s, u, shown);
    if shown && u in s.active {
      ThroughIsIdle(admin, s1, add);
      ThroughIsIdle(admin, s1, mail);
    } else {
      AddMailedPlayed(admin, s1, u, add, mail);
    }
  }

  lemma SignupShown(admin: bool, s: State, u: string, shown: bool)
    requires At(s, SignupShow(u))
    ensures Left(Then(admin, s, Answer(shown)), TreesOf(s), s.links, if shown && u in s.active then Finished else SignupAdd(u))
  {
  }

  lemma AddMailedPlayed(admin: bool, s: State, u: string, add: Outcome, mail: Outcome)
    requires At(s, SignupAdd(u))
    ensures Left(Then(admin, Then(admin, s, add), mail), AfterCreate(TreesOf(s), u, false, add),
                 if u !in s.staged && add.Done? && !mail.Refused? then s.links + [Link(u, Some(s.signups), true)] else s.links, Finished)
  {
    AddPlayed(admin, s, u, add);
    MailPlayed(admin, Then(admin, s, add), u, Some(s.signups), mail);
  }

  lemma AddPlayed(admin: bool, s: State, u: string, add: Outcome)
    requires At(s, SignupAdd(u))
    ensures Left(Then(admin, s, add), AfterCreate(TreesOf(s), u, false, add), s.links,
                 if u !in s.staged && add.Done? then Mail(u, Some(s.signups)) else Finished)
  {
  }

  lemma MailPlayed(admin: bool, s: State, u: string, owner: Option<nat>, mail: Outcome)
    requires At(s, Mail(u, owner)) || At(s, Finished)
    ensures Left(Then(admin, s, mail), TreesOf(s),
                 if At(s, Finished) || mail.Refused? then s.links else s.links + [Link(u, owner, true)], Finished)
  {
  }

  /** A resend that finds an account mails a link for it when its category is unverified
      and it cannot log in before that changes. */
  lemma ResendPlayed(admin: bool, s: State, u: string, mail: Outcome)
    requires At(s, ResendShow(u)) && u in s.active
    ensures var a := s.active[u];
      Left(Then(admin, Then(admin, s, Done), mail), TreesOf(s),
           if a.category == Unverified && (a.locked || admin) && !mail.Refused?
           then s.links + [Link(u, if a.origin.SelfSignup? then Some(a.origin.id) else None, true)] else s.links, Finished)
  {
    var a, s1 := s.active[u], Then(admin, s, Done);
    if a.category == Unverified && (a.locked || admin) {
      assert Left(s1, TreesOf(s), s.links, Mail(u, SignupOf(a)));
      MailPlayed(admin, s1, u, SignupOf(a), mail);
    } else {
      assert Left(s1, TreesOf(s), s.links, Finished);
      ThroughIsIdle(admin, s1, mail);
    }
  }

  /** One that finds none looks for an unverified staged entry instead. */
  lemma ResendMissesPlayed(admin: bool, s: State, u: string, shown: bool)
    requires At(s, ResendShow(u)) && !(shown && u in s.active)
    ensures Left(Then(admin, s, Answer(shown)), TreesOf(s), s.links, ResendStagedShow(u))
  {
  }

  lemma ResendStagedPlayed(admin: bool, s: State, u: string, shown: bool, mail: Outcome)
    requires At(s, ResendStagedShow(u))
    ensures Left(Then(admin, Then(admin, s, Answer(shown)), mail), TreesOf(s),
                 if shown && u in s.staged && s.staged[u].category == Unverified && !mail.Refused?
                 then s.links + [Link(u, Some(s.staged[u].id), true)] else s.links, Finished)
  {
    var s1 := Then(admin, s, Answer(shown));
    if shown && u in s.staged && s.staged[u].category == Unverified {
      MailPlayed(admin, s1, u, Some(s.staged[u].id), mail);
    } else {
      ThroughIsIdle(admin, s1, mail);
    }
  }

  lemma PendPlayed(s: State, u: string, id: nat, link: nat, update: Outcome, unused: Outcome)
    requires At(s, VerifyPend(u, id, link)) && u in s.staged
    ensures Left(Then(true, s, update), AfterVerify(true, TreesOf(s), u, Unverified, update, unused), s.links,
                 if update.Done? then Retire(u, link) else Finished)
  {
  }

  /** The calls that a verification of a staged entry makes before it retires its link. */
  function VerifyRun(admin: bool, s: State, u: string, update: Outcome, activate: Outcome): State {
    var s1 := Then(admin, s, Done);
    if !admin then Then(admin, Then(admin, s1, update), activate)
    else if u in s.staged && s.staged[u].category == Unverified then Then(admin, s1, update)
    else s1
  }

  /** Its link is retired if and only if it reports success. */
  lemma VerifyPlayed(admin: bool, s: State, u: string, link: nat, update: Outcome, activate: Outcome)
    requires At(s, VerifyShow(u, link)) && u in s.staged
    ensures Left(VerifyRun(admin, s, u, update, activate),
                 AfterVerify(admin, TreesOf(s), u, s.staged[u].category, update, activate), s.links,
                 if VerifyWorks(admin, TreesOf(s), u, s.staged[u].category, update, activate) then Retire(u, link) else Finished)
  {
    var s1 := Then(admin, s, Done);
    if !admin {
      MovePlayed(admin, s1, u, update, activate);
    } else if s.staged[u].category == Unverified {
      PendPlayed(s1, u, s.staged[u].id, link, update, activate);
    }
  }

  lemma LegacyModPlayed(admin: bool, s: State, u: string, link: nat, mod: Outcome)
    requires At(s, LegacyVerifyMod(u, link)) && u in s.active
    ensures Left(Then(admin, s, mod),
      TreesOf(s).(active := if mod.Refused? then s.active else s.active[u := s.active[u].(category := if admin then Pending else Empty)]),
      s.links, if mod.Done? then Retire(u, link) else Finished)
  {
  }

  /** The calls that a verification of the legacy backend makes before it retires its link. */
  function LegacyVerifyRun(admin: bool, s: State, u: string, shown: bool, enable: Outcome, mod: Outcome): State {
    var s1 := Then(admin, s, Answer(shown));
    var s2 := if u in s.active && s.active[u].locked && !admin then Then(admin, s1, enable) else s1;
    if u in s.active && s.active[u].category == Unverified then Then(admin, s2, mod) else s2
  }

  lemma LegacyVerifyPlayed(admin: bool, s: State, u: string, link: nat, shown: bool, enable: Outcome, mod: Outcome)
    requires At(s, LegacyVerifyShow(u, link))
    ensures Left(LegacyVerifyRun(admin, s, u, shown, enable, mod), AfterLegacyVerify(admin, TreesOf(s), u, shown, enable, mod), s.links,
                 if LegacyVerifyWorks(admin, TreesOf(s), u, shown, enable, mod) then Retire(u, link) else Finished)
  {
    var s1 := Then(admin, s, Answer(shown));
    if !(shown && u in s.active) {
      ThroughIsIdle(admin, s1, enable);
      ThroughIsIdle(admin, s1, mod);
    } else {
      LegacyShown(admin, s, u, link);
      if s.active[u].locked && !admin {
        LegacyLockedPlayed(s1, u, link, enable, mod);
      } else if s.active[u].category == Unverified {
        LegacyModPlayed(admin, s1, u, link, mod);
      }
    }
  }

  lemma LegacyLockedPlayed(s: State, u: string, link: nat, enable: Outcome, mod: Outcome)
    requires u in s.active && At(s, LegacyVerifyEnable(u, s.active[u].category, link)) && s.active[u].locked
    ensures var s1 := Then(false, s, enable);
      Left(if s.active[u].category == Unverified then Then(false, s1, mod) else s1, AfterLegacyVerify(false, TreesOf(s), u, true, enable, mod),
           s.links, if LegacyVerifyWorks(false, TreesOf(s), u, true, enable, mod) then Retire(u, link) else Finished)
  {
    var a, s1 := s.active[u], Then(false, s, enable);
    LegacyEnablePlayed(s, u, link, enable);
    if a.category == Unverified && enable.Done? {
      LegacyModPlayed(false, s1, u, link, mod);
      assert s1.active[u := a.(locked := false, category := Empty)] == s.active[u := a.(locked := false, category := Empty)];
    } else if a.category == Unverified {
      ThroughIsIdle(false, s1, mod);
    }
  }

  lemma LegacyShown(admin: bool, s: State, u: string, link: nat)
    requires At(s, LegacyVerifyShow(u, link)) && u in s.active
    ensures Left(Then(admin, s, Done), TreesOf(s), s.links,
                 if s.active[u].locked && !admin then LegacyVerifyEnable(u, s.active[u].category, link)
                 else if s.active[u].category == Unverified then LegacyVerifyMod(u, link) else Retire(u, link))
  {
  }

  lemma LegacyEnablePlayed(s: State, u: string, link: nat, enable: Outcome)
    requires u in s.active && At(s, LegacyVerifyEnable(u, s.active[u].category, link))
    ensures Left(Then(false, s, enable),
                 TreesOf(s).(active := if enable.Refused? then s.active else s.active[u := s.active[u].(locked := false)]), s.links,
                 if !enable.Done? then Finished else if s.active[u].category == Unverified then LegacyVerifyMod(u, link) else Retire(u, link))
  {
  }

  /** Retiring kills the presented link and no other. */
  lemma RetirePlayed(admin: bool, s: State, u: string, link: nat, o: Outcome)
    requires At(s, Retire(u, link)) && link < |s.links|
    ensures Left(Then(admin, s, o), TreesOf(s), if o.Refused? then s.links else s.links[link := Link(s.links[link].user, s.links[link].owner, false)], Finished)
  {
  }

  /** A verification all of whose calls work uses up the link that was presented, with
      and without approval and in either tree, and changes no other link. */
  lemma VerifyRetires(admin: bool, s: State, u: string, link: nat)
    requires At(s, VerifyShow(u, link)) && LiveLink(s, u, link)
    requires if u in s.staged then !admin ==> u !in s.active else u in s.active
    ensures var s' := if u in s.staged then VerifyRun(admin, s, u, Done, Done)
                      else LegacyVerifyRun(admin, Then(admin, s, Done), u, true, Done, Done);
      var s'' := Then(admin, s', Done);
      && At(s'', Finished) && s''.links == s.links[link := Link(u, s.links[link].owner, false)] && !LiveLink(s'', u, link)
  {
    if u in s.staged {
      VerifyPlayed(admin, s, u, link, Done, Done);
      RetirePlayed(admin, VerifyRun(admin, s, u, Done, Done), u, link, Done);
    } else {
      var s1 := Then(admin, s, Done);
      assert Left(s1, TreesOf(s), s.links, LegacyVerifyShow(u, link));
      LegacyVerifyPlayed(admin, s1, u, link, true, Done, Done);
      RetirePlayed(admin, LegacyVerifyRun(admin, s1, u, true, Done, Done), u, link, Done);
    }
  }

  /** An invitation adds an empty account of its own; one that is reported as failed is
      undone. */
  lemma InvitePlayed(admin: bool, s: State, u: string, add: Outcome, undo: Outcome)
    requires At(s, InviteAdd(u))
    ensures var s' := Then(admin, Then(admin, s, add), undo);
      Left(s', Trees(s.staged,
                     if u !in s.active && (add.Done? || (add.DoneButReportedFailed? && undo.Refused?))
                     then s.active[u := Account(Empty, false, Invited)] else s.active,
                     s.signups), s.links, Finished)
  {
    var s1 := Then(admin, s, add);
    if u in s.active || !add.DoneButReportedFailed? {
      ThroughIsIdle(admin, s1, undo);
    } else {
      assert At(s1, InviteUndo(u));
      assert s1.active - {u} == s.active;
    }
  }

  /** A profile change writes back the category it read. */
  lemma ProfilePlayed(admin: bool, s: State, u: string, shown: bool, o: Outcome)
    requires At(s, ProfileShow(u))
    ensures Left(Then(admin, Then(admin, s, Answer(shown)), o), TreesOf(s), s.links, Finished)
  {
    var s1 := Then(admin, s, Answer(shown));
    ProfileShown(admin, s, u, shown);
    if shown && u in s.active {
      CategoryPlayed(admin, s1, u, s.active[u].category, o);
      assert s.active[u := s.active[u]] == s.active;
    } else {
      ThroughIsIdle(admin, s1, o);
    }
  }

  lemma ProfileShown(admin: bool, s: State, u: string, shown: bool)
    requires At(s, ProfileShow(u))
    ensures Left(Then(admin, s, Answer(shown)), TreesOf(s), s.links, if shown && u in s.active then ProfileMod(u, s.active[u].category) else Finished)
  {
  }

  lemma CategoryPlayed(admin: bool, s: State, u: string, category: Category, o: Outcome)
    requires At(s, ProfileMod(u, category)) && u in s.active
    ensures Left(Then(admin, s, o), TreesOf(s).(active := if o.Refused? then s.active else s.active[u := s.active[u].(category := category)]),
                 s.links, Finished)
  {
  }

  /** Blocking and unblocking change whether an account is disabled. */
  lemma BlockPlayed(admin: bool, s: State, u: string, o: Outcome)
    requires (At(s, Block(u)) || At(s, Unblock(u))) && u in s.active
    ensures Left(Then(admin, s, o), TreesOf(s).(active := if o.Refused? then s.active else s.active[u := s.active[u].(locked := At(s, Block(u)))]),
                 s.links, Finished)
  {
  }

  lemma LegacyClearPlayed(s: State, u: string, mod: Outcome)
    requires At(s, LegacyApproveMod(u)) && u in s.active
    ensures Left(Then(true, s, mod),
                 TreesOf(s).(active := if mod.Refused? then s.active else s.active[u := s.active[u].(category := Empty)]), s.links, Finished)
  {
  }

  lemma LegacyEntitledPlayed(s: State, u: string, enable: Outcome)
    requires At(s, LegacyApproveEnable(u)) && u in s.active
    ensures Left(Then(true, s, enable),
                 TreesOf(s).(active := if enable.Refused? then s.active else s.active[u := s.active[u].(locked := false)]), s.links,
                 if enable.Done? then LegacyApproveMod(u) else Finished)
  {
  }

  lemma LegacyApprovePlayed(s: State, u: string, enable: Outcome, mod: Outcome)
    requires At(s, LegacyApproveEnable(u)) && u in s.active && s.active[u].category == Pending
    ensures Left(Then(true, Then(true, s, enable), mod), AfterLegacyApprove(TreesOf(s), u, true, enable, mod), s.links, Finished)
  {
    var s1 := Then(true, s, enable);
    LegacyEntitledPlayed(s, u, enable);
    if enable.Done? {
      LegacyClearPlayed(s1, u, mod);
    } else {
      ThroughIsIdle(true, s1, mod);
    }
  }

  lemma LegacyApproveShowPlayed(s: State, u: string, shown: bool, enable: Outcome, mod: Outcome)
    requires At(s, LegacyApproveShow(u))
    ensures Left(Then(true, Then(true, Then(true, s, Answer(shown)), enable), mod),
                 AfterLegacyApprove(TreesOf(s), u, shown, enable, mod), s.links, Finished)
  {
    var s1 := Then(true, s, Answer(shown));
    if PendingAccount(TreesOf(s), u, shown) {
      LegacyApprovePlayed(s1, u, enable, mod);
    } else {
      ThroughIsIdle(true, s1, enable);
      ThroughIsIdle(true, Then(true, s1, enable), mod);
    }
  }

  /** The calls that an approval makes, depending on where it finds the user. */
  function ApproveRun(s: State, u: string, shown: bool, clear: Outcome, activate: Outcome, legacyShown: bool, enable: Outcome, mod: Outcome): State {
    var s1 := Then(true, s, Answer(shown));
    if shown && u in s.staged then Then(true, Then(true, s1, clear), activate)
    else Then(true, Then(true, Then(true, s1, Answer(legacyShown)), enable), mod)
  }

  lemma ApprovePlayed(s: State, u: string, shown: bool, clear: Outcome, activate: Outcome, legacyShown: bool, enable: Outcome, mod: Outcome)
    requires At(s, ApproveShow(u))
    ensures Left(ApproveRun(s, u, shown, clear, activate, legacyShown, enable, mod),
                 AfterApprove(TreesOf(s), u, shown, clear, activate, legacyShown, enable, mod), s.links, Finished)
  {
    if shown && u in s.staged {
      ApproveStagedPlayed(s, u, clear, activate);
    } else {
      var s1 := Then(true, s, Answer(shown));
      assert Left(s1, TreesOf(s), s.links, LegacyApproveShow(u));
      LegacyApproveShowPlayed(s1, u, legacyShown, enable, mod);
    }
  }

  lemma ApproveStagedPlayed(s: State, u: string, clear: Outcome, activate: Outcome)
    requires At(s, ApproveShow(u)) && u in s.staged
    ensures Left(Then(true, Then(true, Then(true, s, Done), clear), activate),
                 if s.staged[u].category == Pending then AfterMove(TreesOf(s), u, clear, activate) else TreesOf(s), s.links, Finished)
  {
    var s1 := Then(true, s, Done);
    if s.staged[u].category == Pending {
      MovePlayed(true, s1, u, clear, activate);
    } else {
      ThroughIsIdle(true, s1, clear);
      ThroughIsIdle(true, Then(true, s1, clear), activate);
    }
  }

  lemma DeletePlayed(s: State, u: string, del: Outcome)
    requires 0 in s.handlers && (s.handlers[0].DenyDelete? || s.handlers[0].LegacyDenyDelete?) && s.handlers[0].user == u
    ensures Left(Then(true, s, del),
      if del.Refused? then TreesOf(s)
      else if s.handlers[0].DenyDelete? then TreesOf(s).(staged := s.staged - {u})
      else TreesOf(s).(active := s.active - {u}), s.links, Finished)
  {
  }

  lemma LegacyDenyPlayed(s: State, u: string, shown: bool, del: Outcome)
    requires At(s, LegacyDenyShow(u))
    ensures Left(Then(true, Then(true, s, Answer(shown)), del), AfterLegacyDeny(TreesOf(s), u, shown, del), s.links, Finished)
  {
    var s1 := Then(true, s, Answer(shown));
    if PendingAccount(TreesOf(s), u, shown) {
      DeletePlayed(s1, u, del);
    } else {
      ThroughIsIdle(true, s1, del);
    }
  }

  function DenyRun(s: State, u: string, shown: bool, del: Outcome, legacyShown: bool, legacyDel: Outcome): State {
    var s1 := Then(true, s, Answer(shown));
    if shown && u in s.staged then Then(true, s1, del) else Then(true, Then(true, s1, Answer(legacyShown)), legacyDel)
  }

  lemma DenyPlayed(s: State, u: string, shown: bool, del: Outcome, legacyShown: bool, legacyDel: Outcome)
    requires At(s, DenyShow(u))
    ensures Left(DenyRun(s, u, shown, del, legacyShown, legacyDel), AfterDeny(TreesOf(s), u, shown, del, legacyShown, legacyDel),
                 s.links, Finished)
  {
    var s1 := Then(true, s, Answer(shown));
    assert TreesOf(s1) == TreesOf(s);
    if !(shown && u in s.staged) {
      LegacyDenyPlayed(s1, u, legacyShown, legacyDel);
    } else if s.staged[u].category == Pending {
      DeletePlayed(s1, u, del);
    } else {
      ThroughIsIdle(true, s1, del);
    }
  }

  predicate IsPending(u: StagedUser) {
    u.category == Pending
  }

  /** The admin's list: the staged signups with exactly the pending category. */
  method FindPending(found: seq<StagedUser>) returns (pending: seq<StagedUser>)
    ensures pending == Filter(found, IsPending)
    ensures forall u :: u in pending <==> u in found && u.category == Pending
  {
    pending := [];
    for i := 0 to |found|
      invariant pending == Filter(found[..i], IsPending)
    {
      FilterStep(found, i, IsPending);
      if found[i].category == Pending {
        pending := pending + [found[i]];
      }
    }
    assert found[..|found|] == found;
  }
}
