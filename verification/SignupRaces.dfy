/** Overlapping handlers when approval is required: exactly when an approval that has
    cleared its entry delivers that entry, and exactly which staged entries are out
    of everybody's reach. Statements are about one user and about everything that
    may follow a state, whatever starts or fails later. */
module SignupRaces {
  import opened Wrappers
  import opened SignupProtocol
  import opened SignupMoves
  import opened Numbers

  // ---- What holds in every run with approval required ----

  predicate AdminPhase(p: Phase) {
    !p.VerifyClear? && !p.VerifyActivate? && !p.LegacyVerifyEnable?
  }

  ghost predicate Shaped(s: State) {
    forall h :: h in s.handlers ==> AdminPhase(s.handlers[h])
  }

  lemma StepKeepsShaped(s: State, e: Event)
    requires Shaped(s) && Enabled(s, e)
    ensures Shaped(Apply(true, s, e))
  {
  }

  lemma {:induction false} RunKeepsShaped(states: seq<State>, events: seq<Event>, i: nat)
    requires Run(true, states, events) && i <= |events|
    ensures Shaped(states[i])
  {
    if i > 0 {
      assert StepAt(true, states, events, i - 1);
      RunKeepsShaped(states, events, i - 1);
      StepKeepsShaped(states[i - 1], events[i - 1]);
    }
  }

  // ---- Who may interfere ----

  /** Would write the staged entry of the user, not knowing that it was cleared. */
  predicate Racer(p: Phase, u: string) {
    (p.VerifyPend? || p.DenyDelete?) && p.user == u
  }

  /** An approval on its way to activate. */
  predicate Approver(p: Phase, u: string) {
    (p.ApproveClear? || p.ApproveActivate?) && p.user == u
  }

  ghost predicate NoRacer(s: State, u: string) {
    forall h :: h in s.handlers ==> !Racer(s.handlers[h], u)
  }

  ghost predicate NoRival(s: State, h: nat, u: string) {
    forall g :: g in s.handlers && g != h ==> !Approver(s.handlers[g], u)
  }

  /** Would give the active account of the name a category again. */
  predicate Demoter(p: Phase, u: string) {
    (p.LegacyVerifyMod? || (p.ProfileMod? && p.category != Empty)) && p.user == u
  }

  /** Nobody is about to make the account one that can be denied, or nearly so. */
  ghost predicate NoDemoter(s: State, u: string) {
    forall h :: h in s.handlers ==> !Demoter(s.handlers[h], u)
  }

  ghost predicate NoRemover(s: State, u: string) {
    forall h :: h in s.handlers ==> !Remover(s.handlers[h], u)
  }

  ghost predicate OneRemover(s: State, u: string) {
    forall h, g :: h in s.handlers && g in s.handlers && Remover(s.handlers[h], u) && Remover(s.handlers[g], u) ==> h == g
  }

  /** The name is taken in the active tree, for good. */
  ghost predicate Settled(s: State, u: string) {
    u in s.active && s.active[u].category == Empty && NoDemoter(s, u) && NoRemover(s, u)
  }

  /** Once the name is taken by an activation it stays taken. */
  ghost predicate Steady(s: State, u: string) {
    NoDemoter(s, u) && (if u in s.active then s.active[u].category == Empty && OneRemover(s, u) else NoRemover(s, u))
  }

  ghost predicate Unthreatened(s: State, h: nat, u: string) {
    Settled(s, u) || (NoRacer(s, u) && (NoRival(s, h, u) || Steady(s, u)))
  }

  // ---- An unthreatened approval delivers its entry ----

  ghost predicate Guarded(s: State, h: nat, u: string, id: nat) {
    && h in s.handlers
    && (|| s.handlers[h].Finished?
        || Settled(s, u)
        || (u in s.staged && s.staged[u] == Entry(id, Empty) && NoRacer(s, u) && (NoRival(s, h, u) || Steady(s, u))))
  }

  /** If handler `h` is about to activate and can, it delivers entry `id`, cleared. */
  ghost predicate DeliversNow(s: State, h: nat, u: string, id: nat) {
    h in s.handlers && s.handlers[h] == ApproveActivate(u, id) && Possible(s, s.handlers[h]) ==> s.staged[u] == Entry(id, Empty)
  }

  ghost predicate AlwaysDelivers(s: State, h: nat, u: string, id: nat) {
    forall t :: CanReach(true, s, t) ==> DeliversNow(t, h, u, id)
  }

  lemma NoDemoterKept(s: State, e: Event, u: string)
    requires Shaped(s) && Enabled(s, e) && NoDemoter(s, u) && (u in s.active ==> s.active[u].category == Empty)
    ensures NoDemoter(Apply(true, s, e), u)
  {
  }

  lemma ActiveStaysEmpty(s: State, e: Event, u: string)
    requires Shaped(s) && Enabled(s, e) && NoDemoter(s, u)
    requires u in s.active ==> s.active[u].category == Empty
    requires u !in s.active && u in s.staged ==> s.staged[u].category == Empty
    ensures u in Apply(true, s, e).active ==> Apply(true, s, e).active[u].category == Empty
  {
  }

  lemma StepKeepsSettled(s: State, e: Event, u: string)
    requires Shaped(s) && Settled(s, u) && Enabled(s, e)
    ensures Settled(Apply(true, s, e), u)
  {
    NoDemoterKept(s, e, u);
    RemoversKept(s, e, u);
    ActiveStaysEmpty(s, e, u);
    assert e.Call? ==> !Remover(s.handlers[e.hid], u);
  }

  /** The entry of the user is left alone by everybody else. */
  lemma EntryKept(s: State, e: Event, h: nat, u: string)
    requires Shaped(s) && Enabled(s, e) && e.hid != h
    requires u in s.staged && s.staged[u].category == Empty && NoRacer(s, u)
    requires e.Call? ==> !(s.handlers[e.hid].ApproveActivate? && s.handlers[e.hid].user == u)
    ensures var s' := Apply(true, s, e); u in s'.staged && s'.staged[u] == s.staged[u] && NoRacer(s', u)
    ensures NoRival(s, h, u) ==> NoRival(Apply(true, s, e), h, u)
  {
  }

  /** While the account is not pending, a remover appears only with an account that
      an invitation has just added. */
  lemma NewRemover(s: State, e: Event, u: string, h: nat)
    requires Enabled(s, e) && (u in s.active ==> s.active[u].category == Empty)
    requires h in Apply(true, s, e).handlers && Remover(Apply(true, s, e).handlers[h], u)
    ensures if h == e.hid then u !in s.active && u in Apply(true, s, e).active else h in s.handlers && Remover(s.handlers[h], u)
  {
  }

  lemma RemoverUsed(s: State, e: Event, u: string)
    requires Enabled(s, e) && u in s.active && u !in Apply(true, s, e).active
    ensures e.Call? && Remover(s.handlers[e.hid], u)
  {
  }

  /** Removers do not become more than the accounts they may remove. */
  lemma RemoversKept(s: State, e: Event, u: string)
    requires Enabled(s, e) && (u in s.active ==> s.active[u].category == Empty)
    requires if u in s.active then OneRemover(s, u) else NoRemover(s, u)
    ensures var s' := Apply(true, s, e);
      && (if u in s'.active then OneRemover(s', u) else NoRemover(s', u))
      && (u in s.active && NoRemover(s, u) ==> u in s'.active && NoRemover(s', u))
  {
    var s' := Apply(true, s, e);
    forall h | h in s'.handlers && Remover(s'.handlers[h], u)
      ensures if h == e.hid then u !in s.active && u in s'.active else h in s.handlers && Remover(s.handlers[h], u)
    {
      NewRemover(s, e, u, h);
    }
    if u in s.active && u !in s'.active {
      RemoverUsed(s, e, u);
    }
  }

  lemma SteadyKept(s: State, e: Event, u: string)
    requires Shaped(s) && Enabled(s, e) && Steady(s, u) && u in s.staged && s.staged[u].category == Empty
    ensures Steady(Apply(true, s, e), u)
  {
    NoDemoterKept(s, e, u);
    RemoversKept(s, e, u);
    ActiveStaysEmpty(s, e, u);
  }

  /** A rival that activates takes the name for good. */
  lemma RivalSettles(s: State, e: Event, u: string)
    requires Shaped(s) && Enabled(s, e) && Steady(s, u) && u in s.staged && s.staged[u].category == Empty
    requires e.Call? && s.handlers[e.hid].ApproveActivate? && s.handlers[e.hid].user == u
    requires Effective(s, s.handlers[e.hid], e.outcome)
    ensures Settled(Apply(true, s, e), u)
  {
    NoDemoterKept(s, e, u);
    ActiveStaysEmpty(s, e, u);
    RivalIsNoRemover(s, e, u);
  }

  lemma RivalIsNoRemover(s: State, e: Event, u: string)
    requires Enabled(s, e) && NoRemover(s, u)
    requires e.Call? && s.handlers[e.hid].ApproveActivate?
    ensures NoRemover(Apply(true, s, e), u)
  {
  }

  /** A rival's activation that does not come off changes nothing but the rival. */
  lemma RivalFails(s: State, e: Event, h: nat, u: string)
    requires Enabled(s, e) && e.hid != h && NoRacer(s, u)
    requires e.Call? && s.handlers[e.hid].ApproveActivate? && !Effective(s, s.handlers[e.hid], e.outcome)
    ensures Apply(true, s, e).staged == s.staged && NoRacer(Apply(true, s, e), u)
    ensures NoRival(s, h, u) ==> NoRival(Apply(true, s, e), h, u)
  {
  }

  lemma StepKeepsGuarded(s: State, e: Event, h: nat, u: string, id: nat)
    requires Shaped(s) && Guarded(s, h, u, id) && Enabled(s, e)
    requires s.handlers[h].Finished? || s.handlers[h] == ApproveActivate(u, id)
    ensures Guarded(Apply(true, s, e), h, u, id)
    ensures Apply(true, s, e).handlers[h].Finished? || Apply(true, s, e).handlers[h] == ApproveActivate(u, id)
  {
    if s.handlers[h].Finished? || e.hid == h {
    } else if Settled(s, u) {
      StepKeepsSettled(s, e, u);
    } else {
      if Steady(s, u) {
        SteadyKept(s, e, u);
      }
      if e.Call? && s.handlers[e.hid].ApproveActivate? && s.handlers[e.hid].user == u {
        if Effective(s, s.handlers[e.hid], e.outcome) {
          RivalSettles(s, e, u);
        } else {
          RivalFails(s, e, h, u);
        }
      } else {
        EntryKept(s, e, h, u);
      }
    }
  }

  lemma {:induction false} GuardedAlong(states: seq<State>, events: seq<Event>, i: nat, h: nat, u: string, id: nat)
    requires Steps(true, states, events) && i <= |events|
    requires Shaped(states[0]) && Guarded(states[0], h, u, id) && states[0].handlers[h] == ApproveActivate(u, id)
    ensures Shaped(states[i]) && Guarded(states[i], h, u, id)
    ensures states[i].handlers[h].Finished? || states[i].handlers[h] == ApproveActivate(u, id)
  {
    if i > 0 {
      assert StepAt(true, states, events, i - 1);
      GuardedAlong(states, events, i - 1, h, u, id);
      StepKeepsShaped(states[i - 1], events[i - 1]);
      StepKeepsGuarded(states[i - 1], events[i - 1], h, u, id);
    }
  }

  lemma UnthreatenedDelivers(s: State, h: nat, u: string, id: nat)
    requires Shaped(s) && h in s.handlers && s.handlers[h] == ApproveActivate(u, id)
    requires u in s.staged && s.staged[u] == Entry(id, Empty) && Unthreatened(s, h, u)
    ensures AlwaysDelivers(s, h, u, id)
  {
    forall t | CanReach(true, s, t) ensures DeliversNow(t, h, u, id) {
      var states: seq<State>, events: seq<Event> :| Steps(true, states, events) && states[0] == s && states[|events|] == t;
      GuardedAlong(states, events, |events|, h, u, id);
    }
  }

  // ---- Moves of an adversary ----

  /** What the moves on the active tree leave alone. */
  ghost predicate Keeps(s: State, t: State, u: string) {
    && t.staged == s.staged && t.signups == s.signups
    && forall h :: h in s.handlers && (Racer(s.handlers[h], u) || Approver(s.handlers[h], u)) ==>
         h in t.handlers && t.handlers[h] == s.handlers[h]
  }

  lemma VerifyMisses(s0: State, s: State, u: string, link: nat) returns (t: State, m: nat)
    requires CanReach(true, s0, s) && LiveLink(s, u, link)
    ensures CanReach(true, s0, t) && m !in s.handlers && t == s.(handlers := s.handlers[m := LegacyVerifyShow(u, link)])
  {
    t, m := Spawned(true, s0, s, VerifyShow(u, link));
    t := Missed(true, s0, t, m, LegacyVerifyShow(u, link));
    assert t.handlers == s.handlers[m := LegacyVerifyShow(u, link)];
  }

  /** A verification that reads the account unverified, by a link mailed for it. */
  lemma AddDemoter(s0: State, s: State, u: string) returns (t: State, m: nat)
    requires CanReach(true, s0, s) && u in s.active && s.active[u].category == Unverified
    ensures CanReach(true, s0, t) && Keeps(s, t, u) && t.active == s.active && m in t.handlers && Demoter(t.handlers[m], u) && t.handlers[m].LegacyVerifyMod?
  {
    var g;
    t, g := ActiveLink(true, s0, s, u);
    t, m := VerifyMisses(s0, t, u, |s.links|);
    t := Told(true, s0, t, m, Done);
  }

  lemma Demoted(s0: State, s: State, u: string, m: nat) returns (t: State)
    requires CanReach(true, s0, s) && u in s.active && m in s.handlers && Demoter(s.handlers[m], u)
    ensures CanReach(true, s0, t) && Keeps(s, t, u) && u in t.active && t.active[u].category != Empty
    ensures s.handlers[m].LegacyVerifyMod? ==> t.active[u].category == Pending
  {
    t := Told(true, s0, s, m, Done);
  }

  lemma MadePending(s0: State, s: State, u: string) returns (t: State)
    requires CanReach(true, s0, s) && u in s.active && (s.active[u].category != Empty || !NoDemoter(s, u))
    ensures CanReach(true, s0, t) && Keeps(s, t, u) && u in t.active && t.active[u].category == Pending
  {
    t := s;
    if s.active[u].category == Empty {
      var m :| m in s.handlers && Demoter(s.handlers[m], u);
      t := Demoted(s0, s, u, m);
    }
    if t.active[u].category == Unverified {
      var g;
      t, g := AddDemoter(s0, t, u);
      t := Demoted(s0, t, u, g);
    }
  }

  lemma InvitedMeanwhile(s0: State, s: State, u: string) returns (t: State)
    requires CanReach(true, s0, s) && u !in s.active
    ensures CanReach(true, s0, t) && Keeps(s, t, u) && u in t.active
    ensures forall h :: h in s.handlers ==> h in t.handlers && t.handlers[h] == s.handlers[h]
  {
    var g;
    t, g := Spawned(true, s0, s, InviteAdd(u));
    t := ReachStep(true, s0, t, Call(g, Done));
  }

  /** A name that is not settled can be freed. */
  lemma FreeName(s0: State, s: State, u: string) returns (t: State)
    requires CanReach(true, s0, s) && !Settled(s, u)
    ensures CanReach(true, s0, t) && Keeps(s, t, u) && u !in t.active
  {
    if u !in s.active {
      t := s;
    } else if k :| k in s.handlers && Remover(s.handlers[k], u) {
      t := Removed(true, s0, s, u, k);
    } else {
      t := MadePending(s0, s, u);
      var g;
      t, g := AddRemover(true, s0, t, u);
      t := Removed(true, s0, t, u, g);
    }
  }

  /** A name that is not steady can be freed, with a remover left for later. */
  lemma FreeNameTwice(s0: State, s: State, u: string) returns (t: State, k: nat)
    requires CanReach(true, s0, s) && !Steady(s, u)
    ensures CanReach(true, s0, t) && Keeps(s, t, u) && u !in t.active && k in t.handlers && Remover(t.handlers[k], u)
  {
    if u !in s.active && !NoRemover(s, u) {
      t := s;
      k :| k in s.handlers && Remover(s.handlers[k], u);
    } else if u in s.active && !OneRemover(s, u) {
      var g;
      g, k :| g in s.handlers && k in s.handlers && Remover(s.handlers[g], u) && Remover(s.handlers[k], u) && g != k;
      t := RemovedByOneOfTwo(s0, s, u, g, k);
    } else {
      t := s;
      if u !in s.active {
        t := InvitedMeanwhile(s0, s, u);
      }
      t, k := PendingFreedTwice(s0, t, u);
    }
  }

  lemma RemovedByOneOfTwo(s0: State, s: State, u: string, g: nat, k: nat) returns (t: State)
    requires CanReach(true, s0, s) && u in s.active && {g, k} <= s.handlers.Keys && g != k
    requires Remover(s.handlers[g], u) && Remover(s.handlers[k], u)
    ensures CanReach(true, s0, t) && Keeps(s, t, u) && u !in t.active && k in t.handlers && Remover(t.handlers[k], u)
  {
    t := Removed(true, s0, s, u, g);
  }

  lemma PendingFreedTwice(s0: State, s: State, u: string) returns (t: State, k: nat)
    requires CanReach(true, s0, s) && u in s.active && (s.active[u].category != Empty || !NoDemoter(s, u))
    ensures CanReach(true, s0, t) && Keeps(s, t, u) && u !in t.active && k in t.handlers && Remover(t.handlers[k], u)
  {
    t := MadePending(s0, s, u);
    var g;
    t, g := AddRemover(true, s0, t, u);
    t, k := AddRemover(true, s0, t, u);
    t := Removed(true, s0, t, u, g);
  }

  // ---- A threatened approval may deliver something else ----

  lemma RacerSpoils(s0: State, s: State, h: nat, u: string, id: nat, g: nat)
    requires CanReach(true, s0, s) && h in s.handlers && s.handlers[h] == ApproveActivate(u, id) && u in s.staged && u !in s.active
    requires g in s.handlers && Racer(s.handlers[g], u)
    ensures !AlwaysDelivers(s0, h, u, id)
  {
    var t := ReachStep(true, s0, s, Call(g, Done));
    if s.handlers[g].DenyDelete? {
      var n;
      t, n := SignedUpAgain(true, s0, t, u);
    }
    assert !DeliversNow(t, h, u, id);
  }

  /** A rival takes the entry; the name signs up anew and is freed again. */
  lemma RivalSpoils(s0: State, s: State, h: nat, u: string, id: nat, r: nat, k: nat)
    requires CanReach(true, s0, s) && h in s.handlers && s.handlers[h] == ApproveActivate(u, id) && u in s.staged && u !in s.active
    requires r in s.handlers && r != h && s.handlers[r].ApproveActivate? && s.handlers[r].user == u
    requires k in s.handlers && Remover(s.handlers[k], u)
    ensures !AlwaysDelivers(s0, h, u, id)
  {
    var t := ReachStep(true, s0, s, Call(r, Done));
    var n;
    t, n := SignedUpAgain(true, s0, t, u);
    t := Removed(true, s0, t, u, k);
    assert !DeliversNow(t, h, u, id);
  }

  /** An approval that is still to clear the entry gets ready to activate it. */
  lemma RivalReady(s0: State, s: State, u: string, r: nat) returns (t: State)
    requires CanReach(true, s0, s) && u in s.staged && s.staged[u].category == Empty && r in s.handlers && Approver(s.handlers[r], u)
    ensures CanReach(true, s0, t) && t.staged == s.staged && t.active == s.active
    ensures r in t.handlers && t.handlers[r].ApproveActivate? && t.handlers[r].user == u
    ensures forall g :: g in s.handlers && g != r ==> g in t.handlers && t.handlers[g] == s.handlers[g]
  {
    t := s;
    if s.handlers[r].ApproveClear? {
      t := ReachStep(true, s0, s, Call(r, Done));
      assert t.staged == s.staged;
    }
  }

  lemma ThreatenedSpoils(s: State, h: nat, u: string, id: nat)
    requires Shaped(s) && h in s.handlers && s.handlers[h] == ApproveActivate(u, id)
    requires u in s.staged && s.staged[u] == Entry(id, Empty) && !Unthreatened(s, h, u)
    ensures !AlwaysDelivers(s, h, u, id)
  {
    ReachSelf(true, s);
    if !NoRacer(s, u) {
      var g :| g in s.handlers && Racer(s.handlers[g], u);
      var t := FreeName(s, s, u);
      RacerSpoils(s, t, h, u, id, g);
    } else {
      var r :| r in s.handlers && r != h && Approver(s.handlers[r], u);
      var t, k := FreeNameTwice(s, s, u);
      t := RivalReady(s, t, u, r);
      RivalSpoils(s, t, h, u, id, r, k);
    }
  }

  /** An approval that has cleared its entry delivers exactly that entry, with an empty
      category, in everything that may follow, if and only if the name is settled in
      the active tree (and nothing is delivered at all), or no verification or denial
      is about to write the entry and no second approval is under way while the name
      may be freed again. */
  lemma DeliversOwnEntryIff(states: seq<State>, events: seq<Event>, h: nat, u: string, id: nat)
    requires Run(true, states, events)
    requires var s := states[|events|];
      h in s.handlers && s.handlers[h] == ApproveActivate(u, id) && u in s.staged && s.staged[u] == Entry(id, Empty)
    ensures AlwaysDelivers(states[|events|], h, u, id) <==> Unthreatened(states[|events|], h, u)
  {
    RunKeepsShaped(states, events, |events|);
    if Unthreatened(states[|events|], h, u) {
      UnthreatenedDelivers(states[|events|], h, u, id);
    } else {
      ThreatenedSpoils(states[|events|], h, u, id);
    }
  }

  // ---- Entries out of reach ----

  ghost predicate NoWriter(s: State, u: string) {
    forall h :: h in s.handlers ==> !Racer(s.handlers[h], u) && !Approver(s.handlers[h], u)
  }

  /** Whatever follows, the staged entry of the user stays as it is. */
  ghost predicate OutOfReach(s: State, u: string)
    requires u in s.staged
  {
    forall t :: CanReach(true, s, t) ==> u in t.staged && t.staged[u] == s.staged[u]
  }

  lemma StepLeavesCleared(s: State, e: Event, u: string)
    requires Shaped(s) && Enabled(s, e) && u in s.staged && s.staged[u].category == Empty && NoWriter(s, u)
    ensures var s' := Apply(true, s, e); u in s'.staged && s'.staged[u] == s.staged[u] && NoWriter(s', u)
  {
    EntryKept(s, e, e.hid + 1, u);
    assert e.Call? ==> !Approver(s.handlers[e.hid], u);
    MoverKeepsOut(s, e, u);
  }

  lemma MoverKeepsOut(s: State, e: Event, u: string)
    requires Enabled(s, e) && u in s.staged && s.staged[u].category == Empty && NoWriter(s, u)
    ensures !Approver(Apply(true, s, e).handlers[e.hid], u)
  {
  }

  lemma {:induction false} ClearedAlong(states: seq<State>, events: seq<Event>, i: nat, u: string)
    requires Steps(true, states, events) && i <= |events|
    requires Shaped(states[0]) && u in states[0].staged && states[0].staged[u].category == Empty && NoWriter(states[0], u)
    ensures Shaped(states[i]) && u in states[i].staged && states[i].staged[u] == states[0].staged[u] && NoWriter(states[i], u)
  {
    if i > 0 {
      assert StepAt(true, states, events, i - 1);
      ClearedAlong(states, events, i - 1, u);
      StepKeepsShaped(states[i - 1], events[i - 1]);
      StepLeavesCleared(states[i - 1], events[i - 1], u);
    }
  }

  /** With approval required, a staged entry that nobody is about to write is out of
      reach of every later verification, approval and denial if and only if its
      category is empty. */
  lemma OutOfReachIff(states: seq<State>, events: seq<Event>, u: string)
    requires Run(true, states, events) && u in states[|events|].staged && NoWriter(states[|events|], u)
    ensures OutOfReach(states[|events|], u) <==> states[|events|].staged[u].category == Empty
  {
    var s := states[|events|];
    RunKeepsShaped(states, events, |events|);
    ReachSelf(true, s);
    if s.staged[u].category == Empty {
      forall t | CanReach(true, s, t) ensures u in t.staged && t.staged[u] == s.staged[u] {
        var path: seq<State>, steps: seq<Event> :| Steps(true, path, steps) && path[0] == s && path[|steps|] == t;
        ClearedAlong(path, steps, |steps|, u);
      }
    } else if s.staged[u].category == Unverified {
      var t, g := StagedLink(true, s, s, u);
      t, g := VerifiedPending(s, t, u, |s.links|);
      assert t.staged[u] != s.staged[u];
    } else {
      var t, g := ApprovedAndCleared(s, s, u);
      assert t.staged[u] != s.staged[u];
    }
  }

  /** So an approval that cleared the category and is then refused leaves the signup
      stuck, unless somebody else is already about to write it. */
  lemma HalfApprovedStaysStuck(states: seq<State>, events: seq<Event>, u: string)
    requires Run(true, states, events) && events != []
    requires var s, e := states[|events| - 1], events[|events| - 1];
      && e.Call? && e.hid in s.handlers && s.handlers[e.hid].ApproveActivate? && s.handlers[e.hid].user == u && e.outcome == Refused
      && u in s.staged && s.staged[u].category == Empty && NoRacer(s, u) && NoRival(s, e.hid, u)
    ensures u in states[|events|].staged && states[|events|].staged[u].category == Empty && OutOfReach(states[|events|], u)
  {
    assert StepAt(true, states, events, |events| - 1);
    OutOfReachIff(states, events, u);
  }

  /** This happens: one signup, one verification, one approval with a refused call. */
  lemma HalfApprovalHappens(u: string) returns (s: State)
    ensures CanReach(true, Init, s) && s.staged == map[u := Entry(0, Empty)] && s.active == map[]
    ensures forall h :: h in s.handlers ==> s.handlers[h] == Finished
  {
    var g;
    s := SignupVerified(u);
    s, g := ApprovedAndCleared(Init, s, u);
    s := Missed(true, Init, s, g, Finished);
  }

  /** A signup, its mail, and a verification with that link, which is used up by it. */
  lemma SignupVerified(u: string) returns (s: State)
    ensures CanReach(true, Init, s) && s.staged == map[u := Entry(0, Pending)] && s.active == map[] && s.signups == 1
    ensures s.links == [Link(u, Some(0), false)] && s.marks == [Verified(u, Some(0), 0)]
    ensures forall h :: h in s.handlers ==> s.handlers[h] == Finished
  {
    ReachSelf(true, Init);
    var g;
    s, g := SignedUpAgain(true, Init, Init, u);
    s := Mailed(true, Init, s, g);
    s, g := VerifiedPending(Init, s, u, 0);
    s := Retired(true, Init, s, g);
  }
}
