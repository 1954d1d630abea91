/** What handlers can be made to do from a given state: the building blocks of runs. */
module SignupMoves {
  import opened Wrappers
  import opened SignupProtocol
  import opened Numbers

  /** A new handler under a number of its own. */
  lemma Spawned(admin: bool, s0: State, s: State, p: Phase) returns (t: State, g: nat)
    requires CanReach(admin, s0, s) && Starting(s, p)
    ensures g !in s.handlers && t == s.(handlers := s.handlers[g := p]) && CanReach(admin, s0, t)
  {
    g := FreshNumber(s.handlers.Keys);
    t := ReachStep(admin, s0, s, Start(g, p));
  }

  /** One call of a handler. */
  lemma Told(admin: bool, s0: State, s: State, g: nat, o: Outcome) returns (t: State)
    requires CanReach(admin, s0, s) && g in s.handlers && !s.handlers[g].Finished?
    ensures CanReach(admin, s0, t) && t == CallApplied(admin, s, g, o)
  {
    t := ReachStep(admin, s0, s, Call(g, o));
  }

  /** A call that is refused moves its handler and nothing else. */
  lemma Missed(admin: bool, s0: State, s: State, g: nat, q: Phase) returns (t: State)
    requires CanReach(admin, s0, s) && g in s.handlers && !s.handlers[g].Finished?
    requires q == NextPhase(admin, s, s.handlers[g], false, false)
    ensures CanReach(admin, s0, t) && t == s.(handlers := s.handlers[g := q])
  {
    t := Told(admin, s0, s, g, Refused);
  }

  /** A signup for a name that is not staged; the look at the active tree may fail.
      The mail is still to be sent. */
  lemma SignedUpAgain(admin: bool, s0: State, s: State, u: string) returns (t: State, g: nat)
    requires CanReach(admin, s0, s) && u !in s.staged
    ensures CanReach(admin, s0, t) && g !in s.handlers
    ensures t == s.(staged := s.staged[u := Entry(s.signups, Unverified)], signups := s.signups + 1,
                    handlers := s.handlers[g := Mail(u, Some(s.signups))])
  {
    t, g := Spawned(admin, s0, s, SignupShow(u));
    t := Missed(admin, s0, t, g, SignupAdd(u));
    t := SignupAdded(admin, s0, t, u, g);
    assert t.handlers == s.handlers[g := Mail(u, Some(s.signups))];
  }

  lemma SignupAdded(admin: bool, s0: State, s: State, u: string, g: nat) returns (t: State)
    requires CanReach(admin, s0, s) && u !in s.staged && g in s.handlers && s.handlers[g] == SignupAdd(u)
    ensures CanReach(admin, s0, t)
    ensures t == s.(staged := s.staged[u := Entry(s.signups, Unverified)], signups := s.signups + 1,
                    handlers := s.handlers[g := Mail(u, Some(s.signups))])
  {
    t := Told(admin, s0, s, g, Done);
  }

  // ---- Links ----

  lemma Mailed(admin: bool, s0: State, s: State, g: nat) returns (t: State)
    requires CanReach(admin, s0, s) && g in s.handlers && s.handlers[g].Mail?
    ensures CanReach(admin, s0, t)
    ensures t == s.(links := s.links + [Link(s.handlers[g].user, s.handlers[g].owner, true)], handlers := s.handlers[g := Finished])
  {
    t := Told(admin, s0, s, g, Done);
  }

  /** A resend that finds the staged entry, having missed the active tree. */
  lemma ResendFindsStaged(admin: bool, s0: State, s: State, u: string) returns (t: State, g: nat)
    requires CanReach(admin, s0, s) && u in s.staged && s.staged[u].category == Unverified
    ensures CanReach(admin, s0, t) && g !in s.handlers && t == s.(handlers := s.handlers[g := Mail(u, Some(s.staged[u].id))])
  {
    t, g := Spawned(admin, s0, s, ResendShow(u));
    t := Missed(admin, s0, t, g, ResendStagedShow(u));
    t := Told(admin, s0, t, g, Done);
    assert t.handlers == s.handlers[g := Mail(u, Some(s.staged[u].id))];
  }

  lemma StagedLink(admin: bool, s0: State, s: State, u: string) returns (t: State, g: nat)
    requires CanReach(admin, s0, s) && u in s.staged && s.staged[u].category == Unverified
    ensures CanReach(admin, s0, t) && g !in s.handlers
    ensures t == s.(links := s.links + [Link(u, Some(s.staged[u].id), true)], handlers := s.handlers[g := Finished])
  {
    t, g := ResendFindsStaged(admin, s0, s, u);
    t := Mailed(admin, s0, t, g);
    assert t.handlers == s.handlers[g := Finished];
  }

  lemma ResendFindsActive(admin: bool, s0: State, s: State, u: string) returns (t: State, g: nat)
    requires CanReach(admin, s0, s) && u in s.active && s.active[u].category == Unverified && (s.active[u].locked || admin)
    ensures CanReach(admin, s0, t) && g !in s.handlers && t == s.(handlers := s.handlers[g := Mail(u, SignupOf(s.active[u]))])
  {
    t, g := Spawned(admin, s0, s, ResendShow(u));
    t := Told(admin, s0, t, g, Done);
    assert t.handlers == s.handlers[g := Mail(u, SignupOf(s.active[u]))];
  }

  lemma ActiveLink(admin: bool, s0: State, s: State, u: string) returns (t: State, g: nat)
    requires CanReach(admin, s0, s) && u in s.active && s.active[u].category == Unverified && (s.active[u].locked || admin)
    ensures CanReach(admin, s0, t) && g !in s.handlers
    ensures t == s.(links := s.links + [Link(u, SignupOf(s.active[u]), true)], handlers := s.handlers[g := Finished])
  {
    t, g := ResendFindsActive(admin, s0, s, u);
    t := Mailed(admin, s0, t, g);
    assert t.handlers == s.handlers[g := Finished];
  }

  // ---- Freeing a name in the active tree ----

  /** About to delete the active account of the name, whatever it is by then. */
  predicate Remover(p: Phase, u: string) {
    p == LegacyDenyDelete(u) || p == InviteUndo(u)
  }

  /** A denial that finds the active account pending, and no staged entry. */
  lemma AddRemover(admin: bool, s0: State, s: State, u: string) returns (t: State, k: nat)
    requires CanReach(admin, s0, s) && u in s.active && s.active[u].category == Pending
    ensures CanReach(admin, s0, t) && k !in s.handlers && t == s.(handlers := s.handlers[k := LegacyDenyDelete(u)])
  {
    t, k := Spawned(admin, s0, s, DenyShow(u));
    t := Missed(admin, s0, t, k, LegacyDenyShow(u));
    t := DenyReadsPending(admin, s0, t, u, k);
    assert t.handlers == s.handlers[k := LegacyDenyDelete(u)];
  }

  lemma DenyReadsPending(admin: bool, s0: State, s: State, u: string, k: nat) returns (t: State)
    requires CanReach(admin, s0, s) && u in s.active && s.active[u].category == Pending
    requires k in s.handlers && s.handlers[k] == LegacyDenyShow(u)
    ensures CanReach(admin, s0, t) && t == s.(handlers := s.handlers[k := LegacyDenyDelete(u)])
  {
    t := Told(admin, s0, s, k, Done);
  }

  lemma Removed(admin: bool, s0: State, s: State, u: string, k: nat) returns (t: State)
    requires CanReach(admin, s0, s) && u in s.active && k in s.handlers && Remover(s.handlers[k], u)
    ensures CanReach(admin, s0, t) && t == s.(active := s.active - {u}, handlers := s.handlers[k := Finished])
  {
    t := Told(admin, s0, s, k, Done);
  }

  // ---- Staged entries, with approval required ----

  lemma VerifyReads(s0: State, s: State, u: string, link: nat) returns (t: State, g: nat)
    requires CanReach(true, s0, s) && u in s.staged && s.staged[u].category == Unverified && LiveLink(s, u, link)
    ensures CanReach(true, s0, t) && g !in s.handlers
    ensures t == s.(handlers := s.handlers[g := VerifyPend(u, s.staged[u].id, link)],
                    marks := s.marks + [Verified(u, s.links[link].owner, s.staged[u].id)])
  {
    t, g := Spawned(true, s0, s, VerifyShow(u, link));
    t := Told(true, s0, t, g, Done);
    assert t.handlers == s.handlers[g := VerifyPend(u, s.staged[u].id, link)];
  }

  /** A verification that made the entry pending; its link is still to be retired. */
  lemma VerifiedPending(s0: State, s: State, u: string, link: nat) returns (t: State, g: nat)
    requires CanReach(true, s0, s) && u in s.staged && s.staged[u].category == Unverified && LiveLink(s, u, link)
    ensures CanReach(true, s0, t) && g !in s.handlers
    ensures t == s.(staged := s.staged[u := Entry(s.staged[u].id, Pending)], handlers := s.handlers[g := Retire(u, link)],
                    marks := s.marks + [Verified(u, s.links[link].owner, s.staged[u].id)])
  {
    t, g := VerifyReads(s0, s, u, link);
    t := Told(true, s0, t, g, Done);
    assert t.handlers == s.handlers[g := Retire(u, link)];
  }

  lemma Retired(admin: bool, s0: State, s: State, g: nat) returns (t: State)
    requires CanReach(admin, s0, s) && g in s.handlers && s.handlers[g].Retire? && s.handlers[g].link < |s.links|
    ensures CanReach(admin, s0, t)
    ensures t == s.(links := s.links[s.handlers[g].link := s.links[s.handlers[g].link].(live := false)], handlers := s.handlers[g := Finished])
  {
    t := Told(admin, s0, s, g, Done);
  }

  lemma ApproveReads(s0: State, s: State, u: string) returns (t: State, g: nat)
    requires CanReach(true, s0, s) && u in s.staged && s.staged[u].category == Pending
    ensures CanReach(true, s0, t) && g !in s.handlers
    ensures t == s.(handlers := s.handlers[g := ApproveClear(u, s.staged[u].id)], marks := s.marks + [Approved(u, s.staged[u].id)])
  {
    t, g := Spawned(true, s0, s, ApproveShow(u));
    t := Told(true, s0, t, g, Done);
    assert t.handlers == s.handlers[g := ApproveClear(u, s.staged[u].id)];
  }

  lemma ApprovedAndCleared(s0: State, s: State, u: string) returns (t: State, g: nat)
    requires CanReach(true, s0, s) && u in s.staged && s.staged[u].category == Pending
    ensures CanReach(true, s0, t) && g !in s.handlers
    ensures t == s.(staged := s.staged[u := Entry(s.staged[u].id, Empty)], handlers := s.handlers[g := ApproveActivate(u, s.staged[u].id)],
                    marks := s.marks + [Approved(u, s.staged[u].id)])
  {
    t, g := ApproveReads(s0, s, u);
    t := Told(true, s0, t, g, Done);
    assert t.handlers == s.handlers[g := ApproveActivate(u, s.staged[u].id)];
  }

  lemma DenyReadsStaged(s0: State, s: State, u: string) returns (t: State, g: nat)
    requires CanReach(true, s0, s) && u in s.staged && s.staged[u].category == Pending
    ensures CanReach(true, s0, t) && g !in s.handlers && t == s.(handlers := s.handlers[g := DenyDelete(u, s.staged[u].id)])
  {
    t, g := Spawned(true, s0, s, DenyShow(u));
    t := Told(true, s0, t, g, Done);
    assert t.handlers == s.handlers[g := DenyDelete(u, s.staged[u].id)];
  }
}
