/** Signup without approval: a verification clears the staged entry and activates it.
    Whatever overlaps and whatever fails, the entry that arrives is the one that was
    verified, with an empty category, exactly unless the name belongs to a legacy
    account that is pending. */
module OpenSignup {
  import opened Wrappers
  import opened SignupProtocol
  import opened SignupMoves
  import opened SignupRaces
  import opened SignupEntries

  /** The state in which these accounts of the legacy backend are all there is. */
  function Beginning(legacy: map<string, Account>): State {
    State(map[], legacy, 0, [], map[], [])
  }

  predicate AllLegacy(accounts: map<string, Account>) {
    forall u :: u in accounts ==> accounts[u].origin.Legacy?
  }

  /** Handlers that only a pending entry or account lets in, or that bring one about. */
  predicate PendingOnly(p: Phase, u: string) {
    && (p.VerifyPend? || p.ApproveClear? || p.ApproveActivate? || p.DenyDelete? || p.LegacyDenyDelete? || (p.ProfileMod? && p.category == Pending))
    && p.user == u
  }

  predicate Opening(p: Phase, u: string) {
    (p.VerifyClear? || p.VerifyActivate?) && p.user == u
  }

  /** The name is active for good, or the entry that was read is still staged. */
  ghost predicate OpeningFits(s: State, p: Phase, u: string) {
    Opening(p, u) ==>
      && EntryVerified(s.marks, u, p.id)
      && ((u in s.active && NoRemover(s, u)) ||
          (u in s.staged && s.staged[u].id == p.id && (p.VerifyActivate? ==> s.staged[u].category == Empty)))
  }

  ghost predicate CleanArrival(marks: seq<Mark>, k: int, u: string)
    requires 0 <= k < |marks|
  {
    marks[k].Arrived? && marks[k].user == u ==> marks[k].category == Empty && EntryVerified(marks[..k], u, marks[k].id)
  }

  /** Nothing under the name is pending, so nothing is denied. */
  ghost predicate NothingPending(s: State, u: string) {
    && (u in s.staged ==> s.staged[u].category != Pending)
    && (u in s.active ==> s.active[u].category != Pending)
    && (forall h :: h in s.handlers ==> !PendingOnly(s.handlers[h], u))
  }

  /** At most one invitation is about to be undone, and only while its account is there. */
  ghost predicate FewRemovers(s: State, u: string) {
    if u in s.active then OneRemover(s, u) else NoRemover(s, u)
  }

  ghost predicate OpenInv(s: State, u: string) {
    && NothingPending(s, u) && FewRemovers(s, u)
    && (forall h :: h in s.handlers ==> OpeningFits(s, s.handlers[h], u))
    && (forall k :: 0 <= k < |s.marks| ==> CleanArrival(s.marks, k, u))
  }

  lemma StepKeepsNothingPending(s: State, e: Event, u: string)
    requires NothingPending(s, u) && Enabled(s, e)
    ensures NothingPending(Apply(false, s, e), u)
  {
    MoverNotPending(s, e, u);
  }

  lemma MoverNotPending(s: State, e: Event, u: string)
    requires NothingPending(s, u) && Enabled(s, e)
    ensures !PendingOnly(Apply(false, s, e).handlers[e.hid], u)
  {
  }

  lemma NewRemoverOpen(s: State, e: Event, u: string, h: nat)
    requires NothingPending(s, u) && Enabled(s, e) && h in Apply(false, s, e).handlers && Remover(Apply(false, s, e).handlers[h], u)
    ensures if h == e.hid then u !in s.active && u in Apply(false, s, e).active else h in s.handlers && Remover(s.handlers[h], u)
  {
  }

  lemma RemoverUsedOpen(s: State, e: Event, u: string)
    requires Enabled(s, e) && u in s.active && u !in Apply(false, s, e).active
    ensures e.Call? && Remover(s.handlers[e.hid], u)
  {
  }

  lemma StepKeepsFewRemovers(s: State, e: Event, u: string)
    requires NothingPending(s, u) && FewRemovers(s, u) && Enabled(s, e)
    ensures FewRemovers(Apply(false, s, e), u)
    ensures u in s.active && NoRemover(s, u) ==> u in Apply(false, s, e).active && NoRemover(Apply(false, s, e), u)
  {
    var s' := Apply(false, s, e);
    forall h | h in s'.handlers && Remover(s'.handlers[h], u)
      ensures if h == e.hid then u !in s.active && u in s'.active else h in s.handlers && Remover(s.handlers[h], u)
    {
      NewRemoverOpen(s, e, u, h);
    }
    if u in s.active && u !in s'.active {
      RemoverUsedOpen(s, e, u);
    }
  }

  /** The entry stays until it is activated, which takes the name for good. */
  lemma EntryStays(s: State, e: Event, u: string)
    requires NothingPending(s, u) && FewRemovers(s, u) && Enabled(s, e) && u in s.staged
    ensures var s' := Apply(false, s, e);
      || (u in s'.active && NoRemover(s', u))
      || (u in s'.staged && s'.staged[u].id == s.staged[u].id && (s.staged[u].category == Empty ==> s'.staged[u].category == Empty))
  {
    if e.Call? && s.handlers[e.hid].VerifyActivate? && s.handlers[e.hid].user == u && Effective(s, s.handlers[e.hid], e.outcome) {
      ActivationSettles(s, e, u);
    }
  }

  lemma ActivationSettles(s: State, e: Event, u: string)
    requires NoRemover(s, u) && Enabled(s, e)
    requires e.Call? && s.handlers[e.hid].VerifyActivate? && s.handlers[e.hid].user == u && Effective(s, s.handlers[e.hid], e.outcome)
    ensures u in Apply(false, s, e).active && NoRemover(Apply(false, s, e), u)
  {
  }

  lemma OthersFit(s: State, e: Event, u: string, h: nat)
    requires OpenInv(s, u) && Enabled(s, e) && h in s.handlers && h != e.hid
    ensures OpeningFits(Apply(false, s, e), s.handlers[h], u)
  {
    assert OpeningFits(s, s.handlers[h], u);
    if Opening(s.handlers[h], u) {
      StepKeepsFewRemovers(s, e, u);
      if u in s.staged {
        EntryStays(s, e, u);
      }
      EntryMarksKept(s.marks, Apply(false, s, e).marks, u, s.handlers[h].id);
    }
  }

  lemma MoverFits(s: State, e: Event, u: string)
    requires OpenInv(s, u) && Enabled(s, e)
    ensures OpeningFits(Apply(false, s, e), Apply(false, s, e).handlers[e.hid], u)
  {
    if e.Call? {
      var p := s.handlers[e.hid];
      var ok, effective := Reported(s, p, e.outcome), Effective(s, p, e.outcome);
      assert OpeningFits(s, p, u);
      ComesFrom(false, s, p, ok, effective);
      if ok && p.VerifyShow? && p.user == u {
        NewEntryMark(s.marks, Verified(u, OwnerOf(s, p.link), s.staged[u].id));
      } else if p.VerifyClear? && p.user == u {
        StepKeepsFewRemovers(s, e, u);
        ClearerFits(s, p, ok, effective, u);
      }
      assert OpeningFits(Apply(false, s, e), NextPhase(false, s, p, ok, effective), u);
    }
  }

  lemma ClearerFits(s: State, p: Phase, ok: bool, effective: bool, u: string)
    requires ok || effective ==> Possible(s, p)
    requires ok ==> effective
    ensures p.VerifyClear? && p.user == u && ok ==>
      && u in StagedAfter(s, p, effective) && StagedAfter(s, p, effective)[u] == Entry(s.staged[u].id, Empty)
      && MarksAfter(s, p, ok, effective) == s.marks
  {
  }

  lemma ArrivalsFit(s: State, e: Event, u: string, k: nat)
    requires OpenInv(s, u) && Enabled(s, e) && k < |Apply(false, s, e).marks|
    ensures CleanArrival(Apply(false, s, e).marks, k, u)
  {
    var s' := Apply(false, s, e);
    if k < |s.marks| {
      assert s'.marks[..k] == s.marks[..k] && s'.marks[k] == s.marks[k];
      assert CleanArrival(s.marks, k, u);
    } else {
      assert s'.marks[..k] == s.marks;
      assert OpeningFits(s, s.handlers[e.hid], u);
    }
  }

  lemma {:induction false} RunKeepsOpenInv(states: seq<State>, events: seq<Event>, i: nat, u: string)
    requires Run(false, states, events) && i <= |events|
    requires u in states[0].active ==> states[0].active[u].category != Pending
    ensures OpenInv(states[i], u)
  {
    if i > 0 {
      assert StepAt(false, states, events, i - 1);
      RunKeepsOpenInv(states, events, i - 1, u);
      var s, e, s' := states[i - 1], events[i - 1], states[i];
      StepKeepsNothingPending(s, e, u);
      StepKeepsFewRemovers(s, e, u);
      forall h | h in s'.handlers ensures OpeningFits(s', s'.handlers[h], u) {
        if h == e.hid {
          MoverFits(s, e, u);
        } else {
          OthersFit(s, e, u, h);
        }
      }
      forall k | 0 <= k < |s'.marks| ensures CleanArrival(s'.marks, k, u) {
        ArrivalsFit(s, e, u, k);
      }
    }
  }

  /** Every arrival under the name, in everything that may follow these accounts, is
      an entry that was itself verified, with an empty category. */
  ghost predicate ArrivalsClean(legacy: map<string, Account>, u: string) {
    forall t :: CanReach(false, Beginning(legacy), t) ==> forall k :: 0 <= k < |t.marks| ==> CleanArrival(t.marks, k, u)
  }

  /** Without approval this needs no proviso on handlers at all: it holds if and only
      if the name is not that of a legacy account pending approval. */
  lemma ArrivalsCleanIff(legacy: map<string, Account>, u: string)
    requires AllLegacy(legacy)
    ensures ArrivalsClean(legacy, u) <==> !(u in legacy && legacy[u].category == Pending)
  {
    if u in legacy && legacy[u].category == Pending {
      var t := PendingLegacySpoils(legacy, u);
      assert !CleanArrival(t.marks, |t.marks| - 1, u);
    } else {
      forall t | CanReach(false, Beginning(legacy), t) ensures forall k :: 0 <= k < |t.marks| ==> CleanArrival(t.marks, k, u) {
        var states: seq<State>, events: seq<Event> :|
          Steps(false, states, events) && states[0] == Beginning(legacy) && states[|events|] == t;
        RunKeepsOpenInv(states, events, |events|, u);
      }
    }
  }

  // ---- The run with a pending legacy account ----

  lemma OpenVerifyReads(s0: State, s: State, u: string, link: nat) returns (t: State, g: nat)
    requires CanReach(false, s0, s) && u in s.staged && LiveLink(s, u, link)
    ensures CanReach(false, s0, t) && g !in s.handlers
    ensures t == s.(handlers := s.handlers[g := VerifyClear(u, s.staged[u].id, link)],
                    marks := s.marks + [Verified(u, s.links[link].owner, s.staged[u].id)])
  {
    t, g := Spawned(false, s0, s, VerifyShow(u, link));
    t := Told(false, s0, t, g, Done);
    assert t.handlers == s.handlers[g := VerifyClear(u, s.staged[u].id, link)];
  }

  lemma VerifiedAndCleared(s0: State, s: State, u: string, link: nat) returns (t: State, g: nat)
    requires CanReach(false, s0, s) && u in s.staged && LiveLink(s, u, link)
    ensures CanReach(false, s0, t) && g !in s.handlers
    ensures t == s.(staged := s.staged[u := Entry(s.staged[u].id, Empty)], handlers := s.handlers[g := VerifyActivate(u, s.staged[u].id, link)],
                    marks := s.marks + [Verified(u, s.links[link].owner, s.staged[u].id)])
  {
    t, g := OpenVerifyReads(s0, s, u, link);
    t := Told(false, s0, t, g, Done);
    assert t.handlers == s.handlers[g := VerifyActivate(u, s.staged[u].id, link)];
  }

  /** Two verifications with the same link are ready to activate. */
  lemma TwoCleared(legacy: map<string, Account>, u: string) returns (s: State, v: nat, w: nat)
    ensures CanReach(false, Beginning(legacy), s) && s.staged == map[u := Entry(0, Empty)] && s.signups == 1 && s.active == legacy
    ensures v != w && {v, w} <= s.handlers.Keys
    ensures s.handlers[v] == VerifyActivate(u, 0, 0) && s.handlers[w] == VerifyActivate(u, 0, 0)
  {
    var s0 := Beginning(legacy);
    ReachSelf(false, s0);
    var g;
    s, g := SignedUpAgain(false, s0, s0, u);
    s := Mailed(false, s0, s, g);
    s, v := VerifiedAndCleared(s0, s, u, 0);
    s, w := VerifiedAndCleared(s0, s, u, 0);
  }

  /** And one of two denials of the legacy account has freed the name. */
  lemma TwoReady(legacy: map<string, Account>, u: string) returns (s: State, v: nat, w: nat, k: nat)
    requires u in legacy && legacy[u].category == Pending
    ensures CanReach(false, Beginning(legacy), s) && s.staged == map[u := Entry(0, Empty)] && s.signups == 1 && u !in s.active
    ensures v != w && {v, w, k} <= s.handlers.Keys
    ensures s.handlers[v] == VerifyActivate(u, 0, 0) && s.handlers[w] == VerifyActivate(u, 0, 0) && s.handlers[k] == LegacyDenyDelete(u)
  {
    var s0, g := Beginning(legacy), 0;
    s, v, w := TwoCleared(legacy, u);
    s, g := AddRemover(false, s0, s, u);
    s, k := AddRemover(false, s0, s, u);
    s := Removed(false, s0, s, u, g);
  }

  lemma PendingLegacySpoils(legacy: map<string, Account>, u: string) returns (s: State)
    requires u in legacy && legacy[u].category == Pending
    ensures CanReach(false, Beginning(legacy), s) && s.marks != [] && s.marks[|s.marks| - 1] == Arrived(u, 1, Unverified)
  {
    var s0 := Beginning(legacy);
    var v, w, k, g;
    s, v, w, k := TwoReady(legacy, u);
    s := Told(false, s0, s, v, Done);
    s, g := SignedUpAgain(false, s0, s, u);
    s := Removed(false, s0, s, u, k);
    s := Told(false, s0, s, w, Done);
  }
}
