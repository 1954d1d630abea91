/** Whose link verifies an entry: the code compares the user name of a link with the
    staged entry, and nothing else. */
module SignupLinks {
  import opened Wrappers
  import opened SignupProtocol
  import opened SignupMoves

  /** Numbers of entries and accounts were given out, each for one of them only. */
  predicate IdsReal(s: State, u: string) {
    && (u in s.staged ==> s.staged[u].id < s.signups)
    && (u in s.active && s.active[u].origin.SelfSignup? ==>
          s.active[u].origin.id < s.signups && (u in s.staged ==> s.active[u].origin.id != s.staged[u].id))
  }

  ghost predicate LinksReal(s: State) {
    && (forall u :: u in s.staged || u in s.active ==> IdsReal(s, u))
    && (forall h :: h in s.handlers && s.handlers[h].VerifyShow? ==> s.handlers[h].link < |s.links|)
  }

  lemma StepKeepsIdsReal(admin: bool, s: State, e: Event, u: string)
    requires IdsReal(s, u) && Enabled(s, e)
    ensures IdsReal(Apply(admin, s, e), u)
  {
  }

  lemma StepKeepsLinksReal(admin: bool, s: State, e: Event)
    requires LinksReal(s) && Enabled(s, e)
    ensures LinksReal(Apply(admin, s, e))
  {
    var s' := Apply(admin, s, e);
    forall u | u in s'.staged || u in s'.active ensures IdsReal(s', u) {
      StepKeepsIdsReal(admin, s, e, u);
    }
    LinksOnlyGrow(admin, s, e);
    if e.Call? {
      MoverPresentsNothing(admin, s, e);
    }
  }

  lemma LinksOnlyGrow(admin: bool, s: State, e: Event)
    requires Enabled(s, e)
    ensures |s.links| <= |Apply(admin, s, e).links|
    ensures forall l: nat :: l < |s.links| ==> OwnerOf(Apply(admin, s, e), l) == OwnerOf(s, l)
  {
  }

  lemma MoverPresentsNothing(admin: bool, s: State, e: Event)
    requires Enabled(s, e) && e.Call?
    ensures !Apply(admin, s, e).handlers[e.hid].VerifyShow?
  {
  }

  lemma {:induction false} RunKeepsLinksReal(admin: bool, states: seq<State>, events: seq<Event>, i: nat)
    requires Run(admin, states, events) && i <= |events|
    ensures LinksReal(states[i])
  {
    if i > 0 {
      assert StepAt(admin, states, events, i - 1);
      RunKeepsLinksReal(admin, states, events, i - 1);
      StepKeepsLinksReal(admin, states[i - 1], events[i - 1]);
    }
  }

  /** Any request may come at any time, and a link may expire at any time; only a
      verification needs a link, one for its user that is neither used nor expired. */
  lemma RequestsMayStart(s: State, h: nat, u: string, link: nat)
    requires h !in s.handlers
    ensures forall p :: p in [SignupShow(u), ResendShow(u), ApproveShow(u), DenyShow(u), InviteAdd(u), ProfileShow(u), Block(u), Unblock(u), Retire(u, link)] ==>
      Enabled(s, Start(h, p))
    ensures Enabled(s, Start(h, VerifyShow(u, link))) <==> link < |s.links| && s.links[link].user == u && s.links[link].live
  {
  }

  // ---- Nothing foreign is about ----

  /** No live link of the name belongs to another than signup `id`. */
  ghost predicate NoForeignLink(s: State, u: string, id: nat) {
    forall l :: 0 <= l < |s.links| && s.links[l].user == u && s.links[l].live ==> s.links[l].owner == Some(id)
  }

  /** A handler that presents such a link, mails one, or would let one be mailed by
      making the active account of the name unverified. */
  ghost predicate Meddles(s: State, p: Phase, u: string, id: nat) {
    || (p.VerifyShow? && p.user == u && OwnerOf(s, p.link) != Some(id))
    || (p.Mail? && p.user == u && p.owner != Some(id))
    || p == ProfileMod(u, Unverified)
  }

  ghost predicate Undisturbed(s: State, u: string, id: nat) {
    && NoForeignLink(s, u, id)
    && (forall h :: h in s.handlers ==> !Meddles(s, s.handlers[h], u, id))
    && (u in s.active ==> s.active[u].category != Unverified)
  }

  ghost predicate OwnMark(m: Mark, u: string, id: nat) {
    m.Verified? && m.user == u && m.id == id ==> m.owner == Some(id)
  }

  /** Whatever follows, the present entry of the user is verified by its own links only. */
  ghost predicate OwnLinksOnly(admin: bool, s: State, u: string)
    requires u in s.staged
  {
    forall t, k :: CanReach(admin, s, t) && |s.marks| <= k < |t.marks| ==> OwnMark(t.marks[k], u, s.staged[u].id)
  }

  // ---- Then it stays so, as long as the entry is there ----

  ghost predicate UndisturbedOrGone(s: State, u: string, id: nat) {
    id < s.signups && (u in s.staged && s.staged[u].id == id ==> Undisturbed(s, u, id))
  }

  lemma EntryWasThere(admin: bool, s: State, e: Event, u: string, id: nat)
    requires Enabled(s, e) && id < s.signups && u in Apply(admin, s, e).staged && Apply(admin, s, e).staged[u].id == id
    ensures u in s.staged && s.staged[u].id == id && id < Apply(admin, s, e).signups
  {
  }

  lemma LinksStayOwn(admin: bool, s: State, e: Event, u: string, id: nat)
    requires Enabled(s, e) && Undisturbed(s, u, id)
    ensures NoForeignLink(Apply(admin, s, e), u, id)
  {
    assert e.Call? ==> !Meddles(s, s.handlers[e.hid], u, id);
  }

  lemma MoverDoesNotMeddle(admin: bool, s: State, e: Event, u: string, id: nat)
    requires Enabled(s, e) && Undisturbed(s, u, id) && u in s.staged && s.staged[u].id == id
    ensures !Meddles(Apply(admin, s, e), Apply(admin, s, e).handlers[e.hid], u, id)
  {
  }

  lemma ActiveStaysVerified(admin: bool, s: State, e: Event, u: string, id: nat)
    requires Enabled(s, e) && Undisturbed(s, u, id) && u in s.staged && u in Apply(admin, s, e).staged
    ensures u in Apply(admin, s, e).active ==> Apply(admin, s, e).active[u].category != Unverified
  {
    assert e.Call? ==> !Meddles(s, s.handlers[e.hid], u, id);
  }

  lemma StepKeepsUndisturbed(admin: bool, s: State, e: Event, u: string, id: nat)
    requires LinksReal(s) && UndisturbedOrGone(s, u, id) && Enabled(s, e)
    ensures UndisturbedOrGone(Apply(admin, s, e), u, id)
  {
    var s' := Apply(admin, s, e);
    if u in s'.staged && s'.staged[u].id == id {
      EntryWasThere(admin, s, e, u, id);
      LinksStayOwn(admin, s, e, u, id);
      ActiveStaysVerified(admin, s, e, u, id);
      LinksOnlyGrow(admin, s, e);
      forall h | h in s'.handlers ensures !Meddles(s', s'.handlers[h], u, id) {
        if h == e.hid {
          MoverDoesNotMeddle(admin, s, e, u, id);
        } else {
          assert !Meddles(s, s.handlers[h], u, id);
        }
      }
    }
  }

  lemma NewMarkIsOwn(admin: bool, s: State, e: Event, u: string, id: nat)
    requires UndisturbedOrGone(s, u, id) && Enabled(s, e)
    ensures Extends(s.marks, Apply(admin, s, e).marks)
    ensures Apply(admin, s, e).marks != s.marks ==> OwnMark(Apply(admin, s, e).marks[|s.marks|], u, id)
  {
    assert e.Call? && u in s.staged && s.staged[u].id == id ==> !Meddles(s, s.handlers[e.hid], u, id);
  }

  lemma {:induction false} UndisturbedAlong(admin: bool, states: seq<State>, events: seq<Event>, i: nat, u: string, id: nat)
    requires Steps(admin, states, events) && i <= |events| && LinksReal(states[0]) && UndisturbedOrGone(states[0], u, id)
    ensures LinksReal(states[i]) && UndisturbedOrGone(states[i], u, id) && |states[0].marks| <= |states[i].marks|
    ensures forall k :: |states[0].marks| <= k < |states[i].marks| ==> OwnMark(states[i].marks[k], u, id)
  {
    if i > 0 {
      assert StepAt(admin, states, events, i - 1);
      UndisturbedAlong(admin, states, events, i - 1, u, id);
      StepKeepsLinksReal(admin, states[i - 1], events[i - 1]);
      StepKeepsUndisturbed(admin, states[i - 1], events[i - 1], u, id);
      NewMarkIsOwn(admin, states[i - 1], events[i - 1], u, id);
    }
  }

  // ---- Otherwise a foreign link may verify the entry ----

  /** Reached from `s`, with the same entry staged. */
  ghost predicate Later(admin: bool, s: State, t: State, u: string) {
    CanReach(admin, s, t) && u in s.staged && u in t.staged && t.staged[u].id == s.staged[u].id && |s.marks| <= |t.marks|
  }

  lemma PresentedVerifies(admin: bool, s: State, t: State, u: string, h: nat)
    requires Later(admin, s, t, u) && h in t.handlers && t.handlers[h].VerifyShow? && t.handlers[h].user == u
    requires OwnerOf(t, t.handlers[h].link) != Some(s.staged[u].id)
    ensures !OwnLinksOnly(admin, s, u)
  {
    var t' := Told(admin, s, t, h, Done);
    assert t'.marks[|t.marks|] == Verified(u, OwnerOf(t, t.handlers[h].link), s.staged[u].id);
  }

  lemma ForeignLinkVerifies(admin: bool, s: State, t: State, u: string, l: nat)
    requires Later(admin, s, t, u) && LiveLink(t, u, l) && t.links[l].owner != Some(s.staged[u].id)
    ensures !OwnLinksOnly(admin, s, u)
  {
    var t', g := Spawned(admin, s, t, VerifyShow(u, l));
    PresentedVerifies(admin, s, t', u, g);
  }

  lemma ForeignMailVerifies(admin: bool, s: State, t: State, u: string, h: nat)
    requires Later(admin, s, t, u) && h in t.handlers && t.handlers[h].Mail? && t.handlers[h].user == u
    requires t.handlers[h].owner != Some(s.staged[u].id)
    ensures !OwnLinksOnly(admin, s, u)
  {
    var t' := Mailed(admin, s, t, h);
    ForeignLinkVerifies(admin, s, t', u, |t.links|);
  }

  lemma Blocked(admin: bool, s: State, t: State, u: string) returns (t': State)
    requires CanReach(admin, s, t) && u in t.active
    ensures CanReach(admin, s, t') && t'.staged == t.staged && t'.marks == t.marks
    ensures t'.active == t.active[u := t.active[u].(locked := true)]
  {
    var g;
    t', g := Spawned(admin, s, t, Block(u));
    t' := Told(admin, s, t', g, Done);
  }

  /** A link can be had for the unverified account, which is not the entry. */
  lemma UnverifiedAccountVerifies(admin: bool, s: State, t: State, u: string)
    requires Later(admin, s, t, u) && u in t.active && t.active[u].category == Unverified && SignupOf(t.active[u]) != Some(s.staged[u].id)
    ensures !OwnLinksOnly(admin, s, u)
  {
    var t', g := t, 0;
    if !t.active[u].locked {
      t' := Blocked(admin, s, t, u);
    }
    t', g := ResendFindsActive(admin, s, t', u);
    ForeignMailVerifies(admin, s, t', u, g);
  }

  lemma InvitedFirst(admin: bool, s: State, t: State, u: string) returns (t': State)
    requires CanReach(admin, s, t) && u !in t.active
    ensures CanReach(admin, s, t') && t'.staged == t.staged && t'.marks == t.marks
    ensures u in t'.active && t'.active[u].origin == Invited && forall h :: h in t.handlers ==> h in t'.handlers && t'.handlers[h] == t.handlers[h]
  {
    var g;
    t', g := Spawned(admin, s, t, InviteAdd(u));
    t' := Told(admin, s, t', g, Done);
  }

  lemma StaleProfileVerifies(admin: bool, s: State, u: string, h: nat)
    requires LinksReal(s) && u in s.staged && h in s.handlers && s.handlers[h] == ProfileMod(u, Unverified)
    ensures !OwnLinksOnly(admin, s, u)
  {
    assert IdsReal(s, u);
    ReachSelf(admin, s);
    var t := s;
    if u !in s.active {
      t := InvitedFirst(admin, s, s, u);
    }
    t := Told(admin, s, t, h, Done);
    UnverifiedAccountVerifies(admin, s, t, u);
  }

  lemma DisturbedVerifies(admin: bool, s: State, u: string)
    requires LinksReal(s) && u in s.staged && !Undisturbed(s, u, s.staged[u].id)
    ensures !OwnLinksOnly(admin, s, u)
  {
    var id := s.staged[u].id;
    ReachSelf(admin, s);
    if !NoForeignLink(s, u, id) {
      var l :| 0 <= l < |s.links| && s.links[l].user == u && s.links[l].live && s.links[l].owner != Some(id);
      ForeignLinkVerifies(admin, s, s, u, l);
    } else if h :| h in s.handlers && Meddles(s, s.handlers[h], u, id) {
      if s.handlers[h].VerifyShow? {
        PresentedVerifies(admin, s, s, u, h);
      } else if s.handlers[h].Mail? {
        ForeignMailVerifies(admin, s, s, u, h);
      } else {
        StaleProfileVerifies(admin, s, u, h);
      }
    } else {
      assert IdsReal(s, u);
      UnverifiedAccountVerifies(admin, s, s, u);
    }
  }

  /** An entry is verified by its own links only, in everything that may follow, if and
      only if no live link of another signup or account under its name is out or on
      its way, no verification that presented one is under way, and no unverified
      account of that name is active, or about to be, for which one would be mailed. */
  lemma OwnLinksOnlyIff(admin: bool, states: seq<State>, events: seq<Event>, u: string)
    requires Run(admin, states, events) && u in states[|events|].staged
    ensures OwnLinksOnly(admin, states[|events|], u) <==> Undisturbed(states[|events|], u, states[|events|].staged[u].id)
  {
    var s, id := states[|events|], states[|events|].staged[u].id;
    RunKeepsLinksReal(admin, states, events, |events|);
    assert IdsReal(s, u);
    if Undisturbed(s, u, id) {
      forall t, k | CanReach(admin, s, t) && |s.marks| <= k < |t.marks| ensures OwnMark(t.marks[k], u, id) {
        var path: seq<State>, steps: seq<Event> :| Steps(admin, path, steps) && path[0] == s && path[|steps|] == t;
        UndisturbedAlong(admin, path, steps, |steps|, u, id);
      }
    } else {
      DisturbedVerifies(admin, s, u);
    }
  }

  // ---- A verification that works uses up its link ----

  lemma DeadLinkStays(admin: bool, s: State, e: Event, link: nat)
    requires Enabled(s, e) && link < |s.links| && !s.links[link].live
    ensures link < |Apply(admin, s, e).links| && !Apply(admin, s, e).links[link].live
  {
  }

  /** A link that is used up verifies nothing any more: no request that presents it starts. */
  lemma {:induction false} DeadLinkStartsNothing(admin: bool, states: seq<State>, events: seq<Event>, i: nat, j: nat, link: nat)
    requires Steps(admin, states, events) && i <= j <= |events| && link < |states[i].links| && !states[i].links[link].live
    ensures link < |states[j].links| && !states[j].links[link].live
    ensures j < |events| ==> forall h, u :: events[j] != Start(h, VerifyShow(u, link))
  {
    if i < j {
      assert StepAt(admin, states, events, j - 1);
      DeadLinkStartsNothing(admin, states, events, i, j - 1, link);
      DeadLinkStays(admin, states[j - 1], events[j - 1], link);
    }
    assert j < |events| ==> StepAt(admin, states, events, j);
  }

  /** The calls that a verification has still to make, all with the link presented. */
  predicate Presenting(p: Phase, u: string, link: nat) {
    || p == VerifyShow(u, link) || p == LegacyVerifyShow(u, link) || p == LegacyVerifyMod(u, link) || p == Retire(u, link)
    || (p.VerifyPend? && p.user == u && p.link == link)
    || ((p.VerifyClear? || p.VerifyActivate?) && p.user == u && p.link == link)
    || (p.LegacyVerifyEnable? && p.user == u && p.link == link)
  }

  /** The call was reported to work; a first look that finds no staged entry leads on to
      the legacy backend. */
  predicate CallWorks(s: State, e: Event, h: nat) {
    e.Call? && e.hid == h && h in s.handlers && !s.handlers[h].VerifyShow? ==> Reported(s, s.handlers[h], e.outcome)
  }

  predicate StillPresenting(s: State, h: nat, u: string, link: nat) {
    && h in s.handlers && link < |s.links|
    && (Presenting(s.handlers[h], u, link) || (s.handlers[h].Finished? && !s.links[link].live))
  }

  lemma StepKeepsPresenting(admin: bool, s: State, e: Event, h: nat, u: string, link: nat)
    requires Enabled(s, e) && StillPresenting(s, h, u, link) && CallWorks(s, e, h)
    ensures StillPresenting(Apply(admin, s, e), h, u, link)
  {
    if e.Call? && e.hid == h {
      PresenterGoesOn(admin, s, h, e.outcome, u, link);
    } else {
      LinksOnlyGrow(admin, s, e);
      if !s.links[link].live {
        DeadLinkStays(admin, s, e, link);
      }
    }
  }

  lemma PresenterGoesOn(admin: bool, s: State, h: nat, o: Outcome, u: string, link: nat)
    requires h in s.handlers && link < |s.links| && Presenting(s.handlers[h], u, link)
    requires s.handlers[h].VerifyShow? || Reported(s, s.handlers[h], o)
    ensures StillPresenting(CallApplied(admin, s, h, o), h, u, link)
  {
  }

  lemma {:induction false} PresentingAlong(admin: bool, states: seq<State>, events: seq<Event>, i: nat, j: nat, h: nat, u: string, link: nat)
    requires Steps(admin, states, events) && i < j <= |events| && events[i] == Start(h, VerifyShow(u, link))
    requires forall k :: i < k < j ==> CallWorks(states[k], events[k], h)
    ensures StillPresenting(states[j], h, u, link)
  {
    assert StepAt(admin, states, events, j - 1);
    if i < j - 1 {
      PresentingAlong(admin, states, events, i, j - 1, h, u, link);
      StepKeepsPresenting(admin, states[j - 1], events[j - 1], h, u, link);
    }
  }

  /** In every run, with and without approval, in either tree and whatever other handlers
      do meanwhile: once a verification is through and all its calls worked, no later
      request can present its link. */
  lemma LinkVerifiesOnce(admin: bool, states: seq<State>, events: seq<Event>, i: nat, j: nat, k: nat, h: nat, u: string, link: nat)
    requires Steps(admin, states, events) && i < j <= k < |events| && events[i] == Start(h, VerifyShow(u, link))
    requires forall m :: i < m < j ==> CallWorks(states[m], events[m], h)
    requires h in states[j].handlers && states[j].handlers[h].Finished?
    ensures forall g, v :: events[k] != Start(g, VerifyShow(v, link))
  {
    PresentingAlong(admin, states, events, i, j, h, u, link);
    DeadLinkStartsNothing(admin, states, events, j, k, link);
  }

  // ---- One request at a time ----

  /** No handler is under way. */
  predicate Idle(s: State) {
    forall h :: h in s.handlers ==> s.handlers[h].Finished?
  }

  /** Reached with every request finished before the next one starts. */
  ghost predicate Alone(t: State) {
    exists states: seq<State>, events: seq<Event> ::
      && Run(true, states, events) && states[|events|] == t
      && forall i :: 0 <= i < |events| && events[i].Start? ==> Idle(states[i])
  }

  lemma AloneInit()
    ensures Alone(Init)
  {
    assert Run(true, [Init], []);
  }

  lemma AloneStep(s: State, e: Event) returns (t: State)
    requires Alone(s) && Enabled(s, e) && (e.Start? ==> Idle(s))
    ensures t == Apply(true, s, e) && Alone(t)
  {
    var states: seq<State>, events: seq<Event> :|
      && Run(true, states, events) && states[|events|] == s
      && forall i :: 0 <= i < |events| && events[i].Start? ==> Idle(states[i]);
    t := Apply(true, s, e);
    StepsExtend(true, states, events, e, t);
    var states', events' := states + [t], events + [e];
    assert states'[0] == states[0] && states'[|events'|] == t;
    forall i | 0 <= i < |events'| && events'[i].Start? ensures Idle(states'[i]) {
      assert i < |events| ==> states'[i] == states[i] && events'[i] == events[i];
    }
  }

  lemma AloneStart(s: State, h: nat, p: Phase) returns (t: State)
    requires Alone(s) && Idle(s) && h !in s.handlers && Starting(s, p)
    ensures Alone(t) && t == s.(handlers := s.handlers[h := p])
  {
    t := AloneStep(s, Start(h, p));
  }

  /** A call that works, or finds nothing. */
  lemma AloneCall(s: State, h: nat) returns (t: State)
    requires Alone(s) && h in s.handlers && !s.handlers[h].Finished?
    ensures Alone(t) && t == CallApplied(true, s, h, Done)
  {
    t := AloneStep(s, Call(h, Done));
  }

  lemma AloneMail(s: State, h: nat) returns (t: State)
    requires Alone(s) && h in s.handlers && s.handlers[h].Mail?
    ensures Alone(t)
    ensures t == s.(links := s.links + [Link(s.handlers[h].user, s.handlers[h].owner, true)], handlers := s.handlers[h := Finished])
  {
    t := AloneCall(s, h);
  }

  lemma AloneAdd(s: State, u: string, h: nat) returns (t: State)
    requires Alone(s) && h in s.handlers && s.handlers[h] == SignupAdd(u) && u !in s.staged
    ensures Alone(t) && t == s.(staged := s.staged[u := Entry(s.signups, Unverified)], signups := s.signups + 1,
                                handlers := s.handlers[h := Mail(u, Some(s.signups))])
  {
    t := AloneCall(s, h);
  }

  /** A look at the active tree that finds no account of the name. */
  lemma AloneMiss(s: State, h: nat, u: string) returns (t: State)
    requires Alone(s) && Idle(s) && h !in s.handlers && u !in s.active
    ensures Alone(t) && t == s.(handlers := s.handlers[h := SignupAdd(u)])
  {
    t := AloneStart(s, h, SignupShow(u));
    t := AloneCall(t, h);
    assert t.handlers == s.handlers[h := SignupAdd(u)];
  }

  lemma SignsUp(s: State, u: string, h: nat) returns (t: State)
    requires Alone(s) && Idle(s) && u !in s.staged && u !in s.active && h !in s.handlers
    ensures Alone(t) && t == s.(staged := s.staged[u := Entry(s.signups, Unverified)], signups := s.signups + 1,
                                links := s.links + [Link(u, Some(s.signups), true)], handlers := s.handlers[h := Finished])
  {
    t := SignsUpUnmailed(s, u, h);
    t := AloneMail(t, h);
    assert t.handlers == s.handlers[h := Finished];
  }

  lemma SignsUpUnmailed(s: State, u: string, h: nat) returns (t: State)
    requires Alone(s) && Idle(s) && u !in s.staged && u !in s.active && h !in s.handlers
    ensures Alone(t) && t == s.(staged := s.staged[u := Entry(s.signups, Unverified)], signups := s.signups + 1,
                                handlers := s.handlers[h := Mail(u, Some(s.signups))])
  {
    t := AloneMiss(s, h, u);
    t := AloneAdd(t, u, h);
    assert t.handlers == s.handlers[h := Mail(u, Some(s.signups))];
  }

  lemma ResendMisses(s: State, u: string, h: nat) returns (t: State)
    requires Alone(s) && Idle(s) && u !in s.active && h !in s.handlers
    ensures Alone(t) && t == s.(handlers := s.handlers[h := ResendStagedShow(u)])
  {
    t := AloneStart(s, h, ResendShow(u));
    t := AloneCall(t, h);
    assert t.handlers == s.handlers[h := ResendStagedShow(u)];
  }

  lemma ResendReads(s: State, u: string, h: nat) returns (t: State)
    requires Alone(s) && u in s.staged && s.staged[u].category == Unverified && h in s.handlers && s.handlers[h] == ResendStagedShow(u)
    ensures Alone(t) && t == s.(handlers := s.handlers[h := Mail(u, Some(s.staged[u].id))])
  {
    t := AloneCall(s, h);
  }

  lemma Resends(s: State, u: string, h: nat) returns (t: State)
    requires Alone(s) && Idle(s) && u in s.staged && s.staged[u].category == Unverified && u !in s.active && h !in s.handlers
    ensures Alone(t) && t == s.(links := s.links + [Link(u, Some(s.staged[u].id), true)], handlers := s.handlers[h := Finished])
  {
    t := ResendMisses(s, u, h);
    t := ResendReads(t, u, h);
    t := AloneMail(t, h);
    assert t.handlers == s.handlers[h := Finished];
  }

  lemma ReadsUnverified(s: State, u: string, link: nat, h: nat) returns (t: State)
    requires Alone(s) && Idle(s) && u in s.staged && s.staged[u].category == Unverified && h !in s.handlers && LiveLink(s, u, link)
    ensures Alone(t)
    ensures t == s.(handlers := s.handlers[h := VerifyPend(u, s.staged[u].id, link)],
                    marks := s.marks + [Verified(u, s.links[link].owner, s.staged[u].id)])
  {
    t := AloneStart(s, h, VerifyShow(u, link));
    t := AloneCall(t, h);
    assert t.handlers == s.handlers[h := VerifyPend(u, s.staged[u].id, link)];
  }

  lemma AlonePend(s: State, u: string, id: nat, link: nat, h: nat) returns (t: State)
    requires Alone(s) && u in s.staged && h in s.handlers && s.handlers[h] == VerifyPend(u, id, link)
    ensures Alone(t) && t == s.(staged := s.staged[u := Entry(s.staged[u].id, Pending)], handlers := s.handlers[h := Retire(u, link)])
  {
    t := AloneCall(s, h);
  }

  lemma AloneRetire(s: State, u: string, link: nat, h: nat) returns (t: State)
    requires Alone(s) && h in s.handlers && s.handlers[h] == Retire(u, link) && link < |s.links|
    ensures Alone(t) && t == s.(links := s.links[link := s.links[link].(live := false)], handlers := s.handlers[h := Finished])
  {
    t := AloneCall(s, h);
  }

  /** A whole verification, after which its link is used up. */
  lemma Verifies(s: State, u: string, link: nat, h: nat) returns (t: State)
    requires Alone(s) && Idle(s) && u in s.staged && s.staged[u].category == Unverified && h !in s.handlers && LiveLink(s, u, link)
    ensures Alone(t)
    ensures t == s.(staged := s.staged[u := Entry(s.staged[u].id, Pending)], links := s.links[link := s.links[link].(live := false)],
                    handlers := s.handlers[h := Finished], marks := s.marks + [Verified(u, s.links[link].owner, s.staged[u].id)])
  {
    t := VerifiesUnretired(s, u, link, h);
    t := AloneRetire(t, u, link, h);
    assert t.handlers == s.handlers[h := Finished];
  }

  lemma VerifiesUnretired(s: State, u: string, link: nat, h: nat) returns (t: State)
    requires Alone(s) && Idle(s) && u in s.staged && s.staged[u].category == Unverified && h !in s.handlers && LiveLink(s, u, link)
    ensures Alone(t)
    ensures t == s.(staged := s.staged[u := Entry(s.staged[u].id, Pending)], handlers := s.handlers[h := Retire(u, link)],
                    marks := s.marks + [Verified(u, s.links[link].owner, s.staged[u].id)])
  {
    t := ReadsUnverified(s, u, link, h);
    t := AlonePend(t, u, s.staged[u].id, link, h);
    assert t.handlers == s.handlers[h := Retire(u, link)];
  }

  lemma DenyReads(s: State, u: string, h: nat) returns (t: State)
    requires Alone(s) && Idle(s) && u in s.staged && s.staged[u].category == Pending && h !in s.handlers
    ensures Alone(t) && t == s.(handlers := s.handlers[h := DenyDelete(u, s.staged[u].id)])
  {
    t := AloneStart(s, h, DenyShow(u));
    t := AloneCall(t, h);
    assert t.handlers == s.handlers[h := DenyDelete(u, s.staged[u].id)];
  }

  lemma Denies(s: State, u: string, h: nat) returns (t: State)
    requires Alone(s) && Idle(s) && u in s.staged && s.staged[u].category == Pending && h !in s.handlers
    ensures Alone(t) && t == s.(staged := s.staged - {u}, handlers := s.handlers[h := Finished])
  {
    t := DenyReads(s, u, h);
    t := AloneCall(t, h);
    assert t.handlers == s.handlers[h := Finished];
  }

  lemma MailedTwice(u: string) returns (s: State)
    ensures Alone(s) && s == State(map[u := Entry(0, Unverified)], map[], 1, [Link(u, Some(0), true), Link(u, Some(0), true)],
                                   map[0 := Finished, 1 := Finished], [])
  {
    AloneInit();
    s := SignsUp(Init, u, 0);
    s := Resends(s, u, 1);
  }

  /** A signup with two mails is verified by the first link and denied. */
  lemma VerifiedThenDenied(u: string) returns (s: State)
    ensures Alone(s) && Idle(s) && s.staged == map[] && s.active == map[] && s.signups == 1 && s.handlers.Keys == {0, 1, 2, 3}
    ensures s.links == [Link(u, Some(0), false), Link(u, Some(0), true)] && s.marks == [Verified(u, Some(0), 0)]
  {
    s := MailedTwice(u);
    s := Verifies(s, u, 0, 2);
    s := Denies(s, u, 3);
  }

  /** It happens with one request at a time: the name signs up again, and the second
      link of the denied signup verifies the new entry. */
  lemma OldLinkVerifiesNewSignup(u: string) returns (s: State)
    ensures Alone(s) && s.staged == map[u := Entry(1, Pending)] && s.marks == [Verified(u, Some(0), 0), Verified(u, Some(0), 1)]
  {
    s := VerifiedThenDenied(u);
    s := SignsUp(s, u, 4);
    s := Verifies(s, u, 1, 5);
  }
}
