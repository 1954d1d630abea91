/** The signup lifecycle with staged signup on, one directory call per step.

    Handlers (signup, resending of links, e-mail verification, admin approve and
    deny, invite, profile changes, block, unblock) run concurrently for any users;
    the phase of a handler is the call it makes next. A call may fail without
    effect, or take effect and still be reported as failed. Every staged entry has
    a number of its own, which the directory calls do not look at: they name the
    user only. */
module SignupProtocol {
  import opened Wrappers

  datatype Category = Unverified | Pending | Empty

  datatype Entry = Entry(id: nat, category: Category)

  /** Where an account of the active tree comes from. */
  datatype Origin = SelfSignup(id: nat) | Invited | Legacy

  datatype Account = Account(category: Category, locked: bool, origin: Origin)

  /** A link for verification: the signup it was mailed for, if it was one, and
      whether it is neither used nor expired. */
  datatype Link = Link(user: string, owner: Option<nat>, live: bool)

  /** `id` is the staged entry a handler has read, `link` the link that a
      verification presents. */
  datatype Phase =
    | SignupShow(user: string) | SignupAdd(user: string)
    | ResendShow(user: string) | ResendStagedShow(user: string)
    | Mail(user: string, owner: Option<nat>)
    | VerifyShow(user: string, link: nat)
    | VerifyPend(user: string, id: nat, link: nat)
    | VerifyClear(user: string, id: nat, link: nat) | VerifyActivate(user: string, id: nat, link: nat)
    | Retire(user: string, link: nat)
    | ApproveShow(user: string) | ApproveClear(user: string, id: nat) | ApproveActivate(user: string, id: nat)
    | DenyShow(user: string) | DenyDelete(user: string, id: nat)
    // the disabled-until-verified backend, reached when the staging tree shows nothing
    | LegacyVerifyShow(user: string, link: nat)
    | LegacyVerifyEnable(user: string, category: Category, link: nat) | LegacyVerifyMod(user: string, link: nat)
    | LegacyApproveShow(user: string) | LegacyApproveEnable(user: string) | LegacyApproveMod(user: string)
    | LegacyDenyShow(user: string) | LegacyDenyDelete(user: string)
    // an invited account whose password is rejected is deleted again
    | InviteAdd(user: string) | InviteUndo(user: string)
    // profile, key and e-mail changes write the category back as they read it
    | ProfileShow(user: string) | ProfileMod(user: string, category: Category)
    | Block(user: string) | Unblock(user: string)
    | Finished

  /** Milestones in the order they happen. */
  datatype Mark =
    | Verified(user: string, owner: Option<nat>, id: nat)
    | Approved(user: string, id: nat)
    | Arrived(user: string, id: nat, category: Category)
    | LegacyVerified(user: string)
    | LegacyApproved(user: string)
    | Unblocked(user: string)

  /** `signups` counts all signups ever staged. */
  datatype State = State(
    staged: map<string, Entry>,
    active: map<string, Account>,
    signups: nat,
    links: seq<Link>,
    handlers: map<nat, Phase>,
    marks: seq<Mark>)

  /** In the beginning there are accounts of the legacy backend only. */
  predicate Starts(s: State) {
    && s.staged == map[] && s.signups == 0 && s.links == [] && s.handlers == map[] && s.marks == []
    && forall u :: u in s.active ==> s.active[u].origin.Legacy?
  }

  const Init := State(map[], map[], 0, [], map[], [])

  /** How a directory call ends for the handler and for the directory. */
  datatype Outcome = Done | Refused | DoneButReportedFailed

  datatype Event =
    | Start(hid: nat, phase: Phase)
    | Call(hid: nat, outcome: Outcome)

  predicate LiveLink(s: State, user: string, link: nat) {
    link < |s.links| && s.links[link].user == user && s.links[link].live
  }

  /** A verification starts when a POST presents a link for the user that is neither
      used nor expired. A Retire that starts by itself is the expiry of a link. */
  predicate Starting(s: State, p: Phase) {
    || p.SignupShow? || p.ResendShow? || p.ApproveShow? || p.DenyShow? || p.InviteAdd? || p.ProfileShow? || p.Block? || p.Unblock?
    || p.Retire?
    || (p.VerifyShow? && LiveLink(s, p.user, p.link))
  }

  predicate Enabled(s: State, e: Event) {
    match e
    case Start(hid, phase) => hid !in s.handlers && Starting(s, phase)
    case Call(hid, _) => hid in s.handlers && !s.handlers[hid].Finished?
  }

  /** Calls on the staged entry of the user. */
  predicate OnStaged(p: Phase) {
    || p.VerifyShow? || p.VerifyPend? || p.VerifyClear? || p.ApproveShow? || p.ApproveClear? || p.DenyShow? || p.DenyDelete?
    || p.ResendStagedShow?
  }

  predicate Activating(p: Phase) {
    p.VerifyActivate? || p.ApproveActivate?
  }

  /** Whether the directory, the mailer or the store can carry out the call at all. */
  predicate Possible(s: State, p: Phase) {
    if p.Finished? then false
    else if p.Mail? then true
    else if p.Retire? then p.link < |s.links|
    else if p.SignupAdd? then p.user !in s.staged
    else if p.InviteAdd? then p.user !in s.active
    else if Activating(p) then p.user in s.staged && p.user !in s.active
    else if OnStaged(p) then p.user in s.staged
    else p.user in s.active
  }

  predicate Reported(s: State, p: Phase, o: Outcome) {
    o.Done? && Possible(s, p)
  }

  predicate Effective(s: State, p: Phase, o: Outcome) {
    !o.Refused? && Possible(s, p)
  }

  /** The signup that an account of the active tree was. */
  function SignupOf(a: Account): Option<nat> {
    if a.origin.SelfSignup? then Some(a.origin.id) else None
  }

  /** The next call of a handler, given what it was told about this one. */
  function NextPhase(admin: bool, s: State, p: Phase, ok: bool, effective: bool): Phase
    requires ok ==> Possible(s, p)
  {
    match p
    case SignupShow(u) => if ok then Finished else SignupAdd(u)
    case SignupAdd(u) => if ok then Mail(u, Some(s.signups)) else Finished
    case ResendShow(u) =>
      if !ok then ResendStagedShow(u)
      else if (s.active[u].locked || admin) && s.active[u].category == Unverified then Mail(u, SignupOf(s.active[u]))
      else Finished
    case ResendStagedShow(u) => if ok && s.staged[u].category == Unverified then Mail(u, Some(s.staged[u].id)) else Finished
    case VerifyShow(u, link) =>
      if !ok then LegacyVerifyShow(u, link)
      else if !admin then VerifyClear(u, s.staged[u].id, link)
      else if s.staged[u].category == Unverified then VerifyPend(u, s.staged[u].id, link)
      else Retire(u, link)
    case VerifyPend(u, _, link) => if ok then Retire(u, link) else Finished
    case VerifyClear(u, id, link) => if ok then VerifyActivate(u, id, link) else Finished
    case VerifyActivate(u, _, link) => if ok then Retire(u, link) else Finished
    case ApproveShow(u) =>
      if !ok then LegacyApproveShow(u) else if s.staged[u].category == Pending then ApproveClear(u, s.staged[u].id) else Finished
    case ApproveClear(u, id) => if ok then ApproveActivate(u, id) else Finished
    case DenyShow(u) =>
      if !ok then LegacyDenyShow(u) else if s.staged[u].category == Pending then DenyDelete(u, s.staged[u].id) else Finished
    case LegacyVerifyShow(u, link) =>
      if !ok then Finished
      else if s.active[u].locked && !admin then LegacyVerifyEnable(u, s.active[u].category, link)
      else if s.active[u].category == Unverified then LegacyVerifyMod(u, link)
      else Retire(u, link)
    case LegacyVerifyEnable(u, category, link) =>
      if !ok then Finished else if category == Unverified then LegacyVerifyMod(u, link) else Retire(u, link)
    case LegacyVerifyMod(u, link) => if ok then Retire(u, link) else Finished
    case LegacyApproveShow(u) => if ok && s.active[u].category == Pending then LegacyApproveEnable(u) else Finished
    case LegacyApproveEnable(u) => if ok then LegacyApproveMod(u) else Finished
    case LegacyDenyShow(u) => if ok && s.active[u].category == Pending then LegacyDenyDelete(u) else Finished
    case InviteAdd(u) => if effective && !ok then InviteUndo(u) else Finished
    case ProfileShow(u) => if ok then ProfileMod(u, s.active[u].category) else Finished
    case _ => Finished
  }

  function StagedAfter(s: State, p: Phase, effective: bool): map<string, Entry>
    requires effective ==> Possible(s, p)
  {
    if !effective then s.staged
    else match p
      case SignupAdd(u) => s.staged[u := Entry(s.signups, Unverified)]
      case VerifyPend(u, _, _) => s.staged[u := s.staged[u].(category := Pending)]
      case VerifyClear(u, _, _) => s.staged[u := s.staged[u].(category := Empty)]
      case ApproveClear(u, _) => s.staged[u := s.staged[u].(category := Empty)]
      case VerifyActivate(u, _, _) => s.staged - {u}
      case ApproveActivate(u, _) => s.staged - {u}
      case DenyDelete(u, _) => s.staged - {u}
      case _ => s.staged
  }

  function ActiveAfter(admin: bool, s: State, p: Phase, effective: bool): map<string, Account>
    requires effective ==> Possible(s, p)
  {
    if !effective then s.active
    else match p
      case VerifyActivate(u, _, _) => s.active[u := Account(s.staged[u].category, false, SelfSignup(s.staged[u].id))]
      case ApproveActivate(u, _) => s.active[u := Account(s.staged[u].category, false, SelfSignup(s.staged[u].id))]
      case InviteAdd(u) => s.active[u := Account(Empty, false, Invited)]
      case InviteUndo(u) => s.active - {u}
      case LegacyVerifyEnable(u, _, _) => s.active[u := s.active[u].(locked := false)]
      case LegacyVerifyMod(u, _) => s.active[u := s.active[u].(category := if admin then Pending else Empty)]
      case LegacyApproveEnable(u) => s.active[u := s.active[u].(locked := false)]
      case LegacyApproveMod(u) => s.active[u := s.active[u].(category := Empty)]
      case LegacyDenyDelete(u) => s.active - {u}
      case ProfileMod(u, category) => s.active[u := s.active[u].(category := category)]
      case Block(u) => s.active[u := s.active[u].(locked := true)]
      case Unblock(u) => s.active[u := s.active[u].(locked := false)]
      case _ => s.active
  }

  function SignupsAfter(s: State, p: Phase, effective: bool): nat {
    if p.SignupAdd? && effective then s.signups + 1 else s.signups
  }

  function LinksAfter(s: State, p: Phase, effective: bool): seq<Link>
    requires effective ==> Possible(s, p)
  {
    if p.Mail? && effective then s.links + [Link(p.user, p.owner, true)]
    else if p.Retire? && effective then s.links[p.link := s.links[p.link].(live := false)]
    else s.links
  }

  function OwnerOf(s: State, link: nat): Option<nat> {
    if link < |s.links| then s.links[link].owner else None
  }

  /** The milestone of a call, if it is one: what was read, or what arrived. */
  function MarkOf(s: State, p: Phase, ok: bool, effective: bool): Option<Mark>
    requires ok || effective ==> Possible(s, p)
  {
    match p
    case VerifyShow(u, link) => if ok then Some(Verified(u, OwnerOf(s, link), s.staged[u].id)) else None
    case ApproveShow(u) => if ok && s.staged[u].category == Pending then Some(Approved(u, s.staged[u].id)) else None
    case VerifyActivate(u, _, _) => if effective then Some(Arrived(u, s.staged[u].id, s.staged[u].category)) else None
    case ApproveActivate(u, _) => if effective then Some(Arrived(u, s.staged[u].id, s.staged[u].category)) else None
    case LegacyVerifyShow(u, _) => if ok then Some(LegacyVerified(u)) else None
    case LegacyApproveShow(u) => if ok && s.active[u].category == Pending then Some(LegacyApproved(u)) else None
    case Unblock(u) => if effective then Some(Unblocked(u)) else None
    case _ => None
  }

  function MarksAfter(s: State, p: Phase, ok: bool, effective: bool): seq<Mark>
    requires ok || effective ==> Possible(s, p)
  {
    var added := MarkOf(s, p, ok, effective);
    if added.None? then s.marks else s.marks + [added.value]
  }

  function CallApplied(admin: bool, s: State, hid: nat, outcome: Outcome): State
    requires hid in s.handlers
  {
    var p := s.handlers[hid];
    var ok, effective := Reported(s, p, outcome), Effective(s, p, outcome);
    State(StagedAfter(s, p, effective), ActiveAfter(admin, s, p, effective), SignupsAfter(s, p, effective), LinksAfter(s, p, effective),
          s.handlers[hid := NextPhase(admin, s, p, ok, effective)], MarksAfter(s, p, ok, effective))
  }

  function Apply(admin: bool, s: State, e: Event): State
    requires Enabled(s, e)
  {
    match e
    case Start(hid, phase) => s.(handlers := s.handlers[hid := phase])
    case Call(hid, outcome) => CallApplied(admin, s, hid, outcome)
  }

  predicate Steps(admin: bool, states: seq<State>, events: seq<Event>) {
    |states| == |events| + 1 && forall i :: 0 <= i < |events| ==> StepAt(admin, states, events, i)
  }

  predicate StepAt(admin: bool, states: seq<State>, events: seq<Event>, i: int)
    requires 0 <= i < |events| < |states|
  {
    Enabled(states[i], events[i]) && states[i + 1] == Apply(admin, states[i], events[i])
  }

  predicate Run(admin: bool, states: seq<State>, events: seq<Event>) {
    Steps(admin, states, events) && Starts(states[0])
  }

  // ---- Milestones ----

  ghost predicate VerifiedName(marks: seq<Mark>, user: string) {
    exists i :: 0 <= i < |marks| && marks[i].Verified? && marks[i].user == user
  }

  ghost predicate ApprovedName(marks: seq<Mark>, user: string) {
    exists i, j :: 0 <= i < j < |marks| && marks[i].Verified? && marks[i].user == user && marks[j].Approved? && marks[j].user == user
  }

  /** At most one milestone a step, and none is ever taken back. */
  ghost predicate Extends(before: seq<Mark>, after: seq<Mark>) {
    after == before || (|after| == |before| + 1 && after == before + [after[|before|]])
  }

  /** What stands behind a milestone: the call it is recorded with, and what that call found. */
  predicate MarkMeans(s: State, e: Event, s': State, m: Mark) {
    && e.Call? && e.hid in s.handlers && !e.outcome.Refused?
    && var p := s.handlers[e.hid];
      match m
      case Verified(u, owner, id) =>
        && p.VerifyShow? && p.user == u && e.outcome.Done? && u in s.staged && s.staged[u].id == id
        && owner == (if p.link < |s.links| then s.links[p.link].owner else None)
      case Approved(u, id) => p == ApproveShow(u) && e.outcome.Done? && u in s.staged && s.staged[u] == Entry(id, Pending)
      case Arrived(u, id, category) =>
        && u in s.staged && s.staged[u] == Entry(id, category) && u !in s'.staged
        && u !in s.active && u in s'.active && s'.active[u] == Account(category, false, SelfSignup(id))
      case LegacyVerified(u) => p.LegacyVerifyShow? && p.user == u && e.outcome.Done? && u in s.active
      case LegacyApproved(u) => p == LegacyApproveShow(u) && e.outcome.Done? && u in s.active && s.active[u].category == Pending
      case Unblocked(u) => p == Unblock(u) && u in s'.active && !s'.active[u].locked
  }

  lemma MilestonesMean(admin: bool, s: State, e: Event)
    requires Enabled(s, e)
    ensures var s' := Apply(admin, s, e);
      Extends(s.marks, s'.marks) && (s'.marks != s.marks ==> MarkMeans(s, e, s', s'.marks[|s.marks|]))
  {
  }

  lemma NameMarksKept(before: seq<Mark>, after: seq<Mark>, user: string)
    requires Extends(before, after)
    ensures VerifiedName(before, user) ==> VerifiedName(after, user)
    ensures ApprovedName(before, user) ==> ApprovedName(after, user) && VerifiedName(before, user)
  {
    if VerifiedName(before, user) {
      var i :| 0 <= i < |before| && before[i].Verified? && before[i].user == user;
      assert after[i] == before[i];
    }
    if ApprovedName(before, user) {
      var i, j :| 0 <= i < j < |before| && before[i].Verified? && before[i].user == user && before[j].Approved? && before[j].user == user;
      assert after[i] == before[i] && after[j] == before[j];
    }
  }

  // ---- No account without verification and approval of its name, in every run ----

  /** What a handler on its way to a staged write or an activation has behind it. */
  ghost predicate HandlerBacked(admin: bool, p: Phase, marks: seq<Mark>) {
    && (p.VerifyPend? ==> VerifiedName(marks, p.user))
    && (p.VerifyClear? || p.VerifyActivate? ==> !admin && VerifiedName(marks, p.user))
    && (p.ApproveClear? || p.ApproveActivate? ==> ApprovedName(marks, p.user))
  }

  ghost predicate ArrivalBacked(admin: bool, marks: seq<Mark>, k: int)
    requires 0 <= k < |marks|
  {
    marks[k].Arrived? ==> VerifiedName(marks[..k], marks[k].user) && (admin ==> ApprovedName(marks[..k], marks[k].user))
  }

  ghost predicate SelfSignupArrived(s: State, user: string)
    requires user in s.active
  {
    s.active[user].origin.SelfSignup? ==>
      (exists k :: 0 <= k < |s.marks| && s.marks[k].Arrived? && s.marks[k].user == user && s.marks[k].id == s.active[user].origin.id)
  }

  ghost predicate Backed(admin: bool, s: State) {
    && (forall u :: u in s.staged && s.staged[u].category == Pending ==> VerifiedName(s.marks, u))
    && (forall h :: h in s.handlers ==> HandlerBacked(admin, s.handlers[h], s.marks))
    && (forall k :: 0 <= k < |s.marks| ==> ArrivalBacked(admin, s.marks, k))
    && (forall u :: u in s.active ==> SelfSignupArrived(s, u))
  }

  lemma NewMarkBacks(marks: seq<Mark>, m: Mark)
    ensures m.Verified? ==> VerifiedName(marks + [m], m.user)
    ensures m.Approved? && VerifiedName(marks, m.user) ==> ApprovedName(marks + [m], m.user)
  {
    assert (marks + [m])[|marks|] == m;
    if m.Approved? && VerifiedName(marks, m.user) {
      var i :| 0 <= i < |marks| && marks[i].Verified? && marks[i].user == m.user;
      assert (marks + [m])[i] == marks[i];
    }
  }

  /** Which phases lead to those that need milestones. */
  lemma ComesFrom(admin: bool, s: State, p: Phase, ok: bool, effective: bool)
    requires ok || effective ==> Possible(s, p)
    ensures var q := NextPhase(admin, s, p, ok, effective);
      && (q.VerifyPend? || q.VerifyClear? ==> p.VerifyShow? && ok && q.user == p.user && q.id == s.staged[p.user].id && (q.VerifyClear? ==> !admin))
      && (q.VerifyActivate? ==> p.VerifyClear? && ok && q.user == p.user && q.id == p.id)
      && (q.ApproveClear? ==> p.ApproveShow? && ok && q.user == p.user && q.id == s.staged[p.user].id && s.staged[p.user].category == Pending)
      && (q.ApproveActivate? ==> p.ApproveClear? && ok && q.user == p.user && q.id == p.id)
      && (q.DenyDelete? ==> p.DenyShow? && ok && q.user == p.user && q.id == s.staged[p.user].id && s.staged[p.user].category == Pending)
  {
    if p.VerifyShow? || p.ApproveShow? || p.VerifyClear? || p.ApproveClear? || p.DenyShow? {
    } else {
      var q := NextPhase(admin, s, p, ok, effective);
      assert !q.VerifyPend? && !q.VerifyClear? && !q.VerifyActivate? && !q.ApproveClear? && !q.ApproveActivate? && !q.DenyDelete?;
    }
  }

  /** A call takes its handler on to something it has the milestones for. */
  lemma NextBacked(admin: bool, s: State, p: Phase, ok: bool, effective: bool)
    requires !p.Finished? && (ok || effective ==> Possible(s, p)) && HandlerBacked(admin, p, s.marks)
    requires p.user in s.staged && s.staged[p.user].category == Pending ==> VerifiedName(s.marks, p.user)
    ensures HandlerBacked(admin, NextPhase(admin, s, p, ok, effective), MarksAfter(s, p, ok, effective))
  {
    ComesFrom(admin, s, p, ok, effective);
    var after := MarksAfter(s, p, ok, effective);
    NameMarksKept(s.marks, after, p.user);
    if p.VerifyShow? && ok {
      NewMarkBacks(s.marks, Verified(p.user, OwnerOf(s, p.link), s.staged[p.user].id));
    } else if p.ApproveShow? && ok && s.staged[p.user].category == Pending {
      NewMarkBacks(s.marks, Approved(p.user, s.staged[p.user].id));
    }
  }

  lemma MoverBacked(admin: bool, s: State, e: Event)
    requires Backed(admin, s) && Enabled(s, e)
    ensures HandlerBacked(admin, Apply(admin, s, e).handlers[e.hid], Apply(admin, s, e).marks)
  {
    if e.Call? {
      var p := s.handlers[e.hid];
      assert HandlerBacked(admin, p, s.marks);
      NextBacked(admin, s, p, Reported(s, p, e.outcome), Effective(s, p, e.outcome));
    }
  }

  lemma StepBacksHandlers(admin: bool, s: State, e: Event, h: nat)
    requires Backed(admin, s) && Enabled(s, e) && h in Apply(admin, s, e).handlers
    ensures HandlerBacked(admin, Apply(admin, s, e).handlers[h], Apply(admin, s, e).marks)
  {
    if h == e.hid {
      MoverBacked(admin, s, e);
    } else {
      assert HandlerBacked(admin, s.handlers[h], s.marks);
      if !s.handlers[h].Finished? {
        NameMarksKept(s.marks, Apply(admin, s, e).marks, s.handlers[h].user);
      }
    }
  }

  lemma StepBacksPending(admin: bool, s: State, e: Event, u: string)
    requires Backed(admin, s) && Enabled(s, e) && u in Apply(admin, s, e).staged && Apply(admin, s, e).staged[u].category == Pending
    ensures VerifiedName(Apply(admin, s, e).marks, u)
  {
    NameMarksKept(s.marks, Apply(admin, s, e).marks, u);
    if e.Call? {
      assert HandlerBacked(admin, s.handlers[e.hid], s.marks);
    }
  }

  lemma StepBacksArrivals(admin: bool, s: State, e: Event, k: nat)
    requires Backed(admin, s) && Enabled(s, e) && k < |Apply(admin, s, e).marks|
    ensures ArrivalBacked(admin, Apply(admin, s, e).marks, k)
  {
    var s' := Apply(admin, s, e);
    if k < |s.marks| {
      assert s'.marks[..k] == s.marks[..k] && s'.marks[k] == s.marks[k];
      assert ArrivalBacked(admin, s.marks, k);
    } else {
      assert s'.marks[..k] == s.marks;
      assert HandlerBacked(admin, s.handlers[e.hid], s.marks);
      NameMarksKept(s.marks, s'.marks, s'.marks[k].user);
    }
  }

  lemma StepRecordsArrivals(admin: bool, s: State, e: Event, u: string)
    requires Backed(admin, s) && Enabled(s, e) && u in Apply(admin, s, e).active
    ensures SelfSignupArrived(Apply(admin, s, e), u)
  {
    var s' := Apply(admin, s, e);
    if s'.active[u].origin.SelfSignup? {
      if u in s.active && s.active[u].origin == s'.active[u].origin {
        assert SelfSignupArrived(s, u);
        var k :| 0 <= k < |s.marks| && s.marks[k].Arrived? && s.marks[k].user == u && s.marks[k].id == s.active[u].origin.id;
        assert s'.marks[k] == s.marks[k];
      } else {
        assert s'.marks[|s.marks|] == Arrived(u, s.staged[u].id, s.staged[u].category);
      }
    }
  }

  lemma StepKeepsBacked(admin: bool, s: State, e: Event)
    requires Backed(admin, s) && Enabled(s, e)
    ensures Backed(admin, Apply(admin, s, e))
  {
    var s' := Apply(admin, s, e);
    forall u | u in s'.staged && s'.staged[u].category == Pending ensures VerifiedName(s'.marks, u) {
      StepBacksPending(admin, s, e, u);
    }
    forall h | h in s'.handlers ensures HandlerBacked(admin, s'.handlers[h], s'.marks) {
      StepBacksHandlers(admin, s, e, h);
    }
    forall k | 0 <= k < |s'.marks| ensures ArrivalBacked(admin, s'.marks, k) {
      StepBacksArrivals(admin, s, e, k);
    }
    forall u | u in s'.active ensures SelfSignupArrived(s', u) {
      StepRecordsArrivals(admin, s, e, u);
    }
  }

  lemma {:induction false} RunKeepsBacked(admin: bool, states: seq<State>, events: seq<Event>, i: nat)
    requires Run(admin, states, events) && i <= |events|
    ensures Backed(admin, states[i])
  {
    if i > 0 {
      assert StepAt(admin, states, events, i - 1);
      RunKeepsBacked(admin, states, events, i - 1);
      StepKeepsBacked(admin, states[i - 1], events[i - 1]);
    }
  }

  /** A self-signup is in the active tree only if it arrived there after a verify
      POST with an accepted token for that user name, followed by an admin approve
      of that name when approval is required; whatever calls failed and however
      handlers interleaved. Whether it is the verified entry that arrived is
      another question: see SignupEntries.dfy and SignupRaces.dfy. */
  lemma {:induction false} NameVerifiedFirst(admin: bool, states: seq<State>, events: seq<Event>, user: string) returns (k: nat)
    requires Run(admin, states, events)
    requires user in states[|events|].active && states[|events|].active[user].origin.SelfSignup?
    ensures var marks := states[|events|].marks;
      && k < |marks| && marks[k].Arrived? && marks[k].user == user && marks[k].id == states[|events|].active[user].origin.id
      && VerifiedName(marks[..k], user) && (admin ==> ApprovedName(marks[..k], user))
  {
    RunKeepsBacked(admin, states, events, |events|);
    var s := states[|events|];
    assert SelfSignupArrived(s, user);
    k :| 0 <= k < |s.marks| && s.marks[k].Arrived? && s.marks[k].user == user && s.marks[k].id == s.active[user].origin.id;
    assert ArrivalBacked(admin, s.marks, k);
  }

  // ---- What may follow a state ----

  ghost predicate CanReach(admin: bool, s: State, t: State) {
    exists states: seq<State>, events: seq<Event> :: Steps(admin, states, events) && states[0] == s && states[|events|] == t
  }

  lemma ReachSelf(admin: bool, s: State)
    ensures CanReach(admin, s, s)
  {
    assert Steps(admin, [s], []);
  }

  lemma ReachStep(admin: bool, s: State, t: State, e: Event) returns (t': State)
    requires CanReach(admin, s, t) && Enabled(t, e)
    ensures t' == Apply(admin, t, e) && CanReach(admin, s, t')
  {
    var states: seq<State>, events: seq<Event> :| Steps(admin, states, events) && states[0] == s && states[|events|] == t;
    t' := Apply(admin, t, e);
    StepsExtend(admin, states, events, e, t');
    assert (states + [t'])[0] == s && (states + [t'])[|events + [e]|] == t';
  }

  lemma StepsExtend(admin: bool, states: seq<State>, events: seq<Event>, e: Event, t': State)
    requires Steps(admin, states, events) && Enabled(states[|events|], e) && t' == Apply(admin, states[|events|], e)
    ensures Steps(admin, states + [t'], events + [e])
  {
    var states', events' := states + [t'], events + [e];
    forall i | 0 <= i < |events'| ensures StepAt(admin, states', events', i) {
      if i < |events| {
        assert StepAt(admin, states, events, i);
        assert states'[i] == states[i] && states'[i + 1] == states[i + 1] && events'[i] == events[i];
      }
    }
  }
}
