/** Accounts of the disabled-until-verified backend: when a disabled one is enabled. */
module LegacySignup {
  import opened SignupProtocol

  ghost predicate HasMark(marks: seq<Mark>, m: Mark) {
    exists i :: 0 <= i < |marks| && marks[i] == m
  }

  ghost predicate VerifiedThenApproved(marks: seq<Mark>, u: string) {
    exists i, j :: 0 <= i < j < |marks| && marks[i] == LegacyVerified(u) && marks[j] == LegacyApproved(u)
  }

  /** An approval counts if the account was pending from the start or verified before. */
  ghost predicate ApprovedInTurn(marks: seq<Mark>, u: string, initial: Category) {
    if initial == Pending then HasMark(marks, LegacyApproved(u)) else VerifiedThenApproved(marks, u)
  }

  /** What entitles a disabled account to be enabled. */
  ghost predicate Entitled(admin: bool, marks: seq<Mark>, u: string, initial: Category) {
    || HasMark(marks, Unblocked(u))
    || (!admin && HasMark(marks, LegacyVerified(u)))
    || ApprovedInTurn(marks, u, initial)
  }

  lemma MarksKept(before: seq<Mark>, after: seq<Mark>, u: string, initial: Category)
    requires Extends(before, after)
    ensures forall m :: HasMark(before, m) ==> HasMark(after, m)
    ensures ApprovedInTurn(before, u, initial) ==> ApprovedInTurn(after, u, initial)
  {
    forall m | HasMark(before, m) ensures HasMark(after, m) {
      var i :| 0 <= i < |before| && before[i] == m;
      assert after[i] == m;
    }
    if VerifiedThenApproved(before, u) {
      var i, j :| 0 <= i < j < |before| && before[i] == LegacyVerified(u) && before[j] == LegacyApproved(u);
      assert after[i] == before[i] && after[j] == before[j];
    }
  }

  lemma NewMark(marks: seq<Mark>, m: Mark, u: string, initial: Category)
    ensures HasMark(marks + [m], m)
    ensures m == LegacyApproved(u) && (initial == Pending || HasMark(marks, LegacyVerified(u))) ==> ApprovedInTurn(marks + [m], u, initial)
  {
    assert (marks + [m])[|marks|] == m;
    if m == LegacyApproved(u) && HasMark(marks, LegacyVerified(u)) {
      var i :| 0 <= i < |marks| && marks[i] == LegacyVerified(u);
      assert (marks + [m])[i] == marks[i];
    }
  }

  ghost predicate HandlerFits(admin: bool, p: Phase, marks: seq<Mark>, u: string, initial: Category) {
    && (p.LegacyVerifyEnable? && p.user == u ==> !admin && HasMark(marks, LegacyVerified(u)))
    && (p.LegacyVerifyMod? && p.user == u ==> HasMark(marks, LegacyVerified(u)))
    && (p == ProfileMod(u, Pending) ==> initial == Pending || HasMark(marks, LegacyVerified(u)))
    && (p == LegacyApproveEnable(u) || p == LegacyApproveMod(u) ==> ApprovedInTurn(marks, u, initial))
  }

  /** As long as the name still belongs to the legacy account. */
  ghost predicate LegacyInv(admin: bool, s: State, u: string, initial: Category) {
    u in s.active && s.active[u].origin.Legacy? ==>
      && (s.active[u].category == Pending ==> initial == Pending || HasMark(s.marks, LegacyVerified(u)))
      && (forall h :: h in s.handlers ==> HandlerFits(admin, s.handlers[h], s.marks, u, initial))
      && (!s.active[u].locked ==> Entitled(admin, s.marks, u, initial))
  }

  /** Which phases lead to those that change the account. */
  lemma LegacyComesFrom(admin: bool, s: State, p: Phase, ok: bool, effective: bool)
    requires ok || effective ==> Possible(s, p)
    ensures var q := NextPhase(admin, s, p, ok, effective);
      && (q.LegacyVerifyEnable? ==> p.LegacyVerifyShow? && ok && q.user == p.user && !admin)
      && (q.LegacyVerifyMod? ==> (p.LegacyVerifyShow? || p.LegacyVerifyEnable?) && ok && q.user == p.user)
      && (q.LegacyApproveEnable? ==> p.LegacyApproveShow? && ok && q.user == p.user && s.active[p.user].category == Pending)
      && (q.LegacyApproveMod? ==> p.LegacyApproveEnable? && q.user == p.user)
      && (q.ProfileMod? ==> p.ProfileShow? && ok && q.user == p.user && q.category == s.active[p.user].category)
  {
    if p.LegacyVerifyShow? || p.LegacyVerifyEnable? || p.LegacyApproveShow? || p.LegacyApproveEnable? || p.ProfileShow? {
    } else {
      var q := NextPhase(admin, s, p, ok, effective);
      assert !q.LegacyVerifyEnable? && !q.LegacyVerifyMod? && !q.LegacyApproveEnable? && !q.LegacyApproveMod? && !q.ProfileMod?;
    }
  }

  lemma MoverFits(admin: bool, s: State, e: Event, u: string, initial: Category)
    requires Enabled(s, e) && LegacyInv(admin, s, u, initial) && u in s.active && s.active[u].origin.Legacy?
    ensures HandlerFits(admin, Apply(admin, s, e).handlers[e.hid], Apply(admin, s, e).marks, u, initial)
  {
    if e.Call? {
      var p, after := s.handlers[e.hid], Apply(admin, s, e).marks;
      var ok, effective := Reported(s, p, e.outcome), Effective(s, p, e.outcome);
      assert HandlerFits(admin, p, s.marks, u, initial);
      MarksKept(s.marks, after, u, initial);
      LegacyComesFrom(admin, s, p, ok, effective);
      if p.LegacyVerifyShow? && ok {
        NewMark(s.marks, LegacyVerified(p.user), u, initial);
      } else if p.LegacyApproveShow? && ok && s.active[p.user].category == Pending {
        NewMark(s.marks, LegacyApproved(p.user), u, initial);
      }
      assert HandlerFits(admin, NextPhase(admin, s, p, ok, effective), after, u, initial);
    }
  }

  lemma AccountFits(admin: bool, s: State, e: Event, u: string, initial: Category)
    requires Enabled(s, e) && LegacyInv(admin, s, u, initial) && u in s.active && s.active[u].origin.Legacy?
    requires u in Apply(admin, s, e).active && Apply(admin, s, e).active[u].origin.Legacy?
    ensures var s' := Apply(admin, s, e);
      && (s'.active[u].category == Pending ==> initial == Pending || HasMark(s'.marks, LegacyVerified(u)))
      && (!s'.active[u].locked ==> Entitled(admin, s'.marks, u, initial))
  {
    var s' := Apply(admin, s, e);
    MarksKept(s.marks, s'.marks, u, initial);
    if e.Call? {
      assert HandlerFits(admin, s.handlers[e.hid], s.marks, u, initial);
      if s'.marks != s.marks {
        NewMark(s.marks, s'.marks[|s.marks|], u, initial);
      }
    }
  }

  lemma StepKeepsLegacyInv(admin: bool, s: State, e: Event, u: string, initial: Category)
    requires Enabled(s, e) && LegacyInv(admin, s, u, initial)
    ensures LegacyInv(admin, Apply(admin, s, e), u, initial)
  {
    var s' := Apply(admin, s, e);
    if u in s'.active && s'.active[u].origin.Legacy? {
      AccountFits(admin, s, e, u, initial);
      MarksKept(s.marks, s'.marks, u, initial);
      forall h | h in s'.handlers ensures HandlerFits(admin, s'.handlers[h], s'.marks, u, initial) {
        if h == e.hid {
          MoverFits(admin, s, e, u, initial);
        } else {
          assert HandlerFits(admin, s.handlers[h], s.marks, u, initial);
        }
      }
    }
  }

  lemma {:induction false} RunKeepsLegacyInv(admin: bool, states: seq<State>, events: seq<Event>, i: nat, u: string)
    requires Run(admin, states, events) && i <= |events|
    requires u in states[0].active && states[0].active[u].locked
    ensures LegacyInv(admin, states[i], u, states[0].active[u].category)
  {
    if i > 0 {
      assert StepAt(admin, states, events, i - 1);
      RunKeepsLegacyInv(admin, states, events, i - 1, u);
      StepKeepsLegacyInv(admin, states[i - 1], events[i - 1], u, states[0].active[u].category);
    }
  }

  /** In every run a disabled legacy account is enabled only by an unblock, by a
      verification when no approval is required, or by an approval, which comes after
      a verification unless the account was pending from the start. */
  lemma {:induction false} EnabledOnlyIfEntitled(admin: bool, states: seq<State>, events: seq<Event>, u: string)
    requires Run(admin, states, events) && u in states[0].active && states[0].active[u].locked
    requires var s := states[|events|]; u in s.active && s.active[u].origin.Legacy? && !s.active[u].locked
    ensures Entitled(admin, states[|events|].marks, u, states[0].active[u].category)
  {
    RunKeepsLegacyInv(admin, states, events, |events|, u);
  }
}
