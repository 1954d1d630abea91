/** Which entry arrives in the active tree, and by whose link it was verified. */
module SignupEntries {
  import opened Wrappers
  import opened SignupProtocol
  import opened SignupMoves
  import opened SignupRaces

  ghost predicate EntryVerified(marks: seq<Mark>, u: string, id: nat) {
    exists i :: 0 <= i < |marks| && marks[i].Verified? && marks[i].user == u && marks[i].id == id
  }

  /** Verified first, and approved after that. */
  ghost predicate EntryApproved(marks: seq<Mark>, u: string, id: nat) {
    exists i, j :: 0 <= i < j < |marks| && marks[i].Verified? && marks[i].user == u && marks[i].id == id && marks[j] == Approved(u, id)
  }

  lemma EntryMarksKept(before: seq<Mark>, after: seq<Mark>, u: string, id: nat)
    requires Extends(before, after)
    ensures EntryVerified(before, u, id) ==> EntryVerified(after, u, id)
    ensures EntryApproved(before, u, id) ==> EntryApproved(after, u, id)
  {
    if EntryVerified(before, u, id) {
      var i :| 0 <= i < |before| && before[i].Verified? && before[i].user == u && before[i].id == id;
      assert after[i] == before[i];
    }
    if EntryApproved(before, u, id) {
      var i, j :| 0 <= i < j < |before| && before[i].Verified? && before[i].user == u && before[i].id == id && before[j] == Approved(u, id);
      assert after[i] == before[i] && after[j] == before[j];
    }
  }

  lemma NewEntryMark(marks: seq<Mark>, m: Mark)
    ensures m.Verified? ==> EntryVerified(marks + [m], m.user, m.id)
    ensures m.Approved? && EntryVerified(marks, m.user, m.id) ==> EntryApproved(marks + [m], m.user, m.id)
  {
    assert (marks + [m])[|marks|] == m;
    if m.Approved? && EntryVerified(marks, m.user, m.id) {
      var i :| 0 <= i < |marks| && marks[i].Verified? && marks[i].user == m.user && marks[i].id == m.id;
      assert (marks + [m])[i] == marks[i];
    }
  }

  // ---- Approval required, handlers of the user not overlapping ----

  predicate Writer(p: Phase, u: string) {
    Racer(p, u) || Approver(p, u)
  }

  /** At most one handler is about to write the staged entry of this user. */
  predicate Solo(s: State, u: string) {
    forall h, g :: h in s.handlers && g in s.handlers && h != g && Writer(s.handlers[h], u) ==> !Writer(s.handlers[g], u)
  }

  ghost predicate WriterFits(s: State, p: Phase, u: string) {
    Writer(p, u) ==>
      && u in s.staged && s.staged[u].id == p.id
      && (p.VerifyPend? ==> EntryVerified(s.marks, u, p.id))
      && (Approver(p, u) ==> EntryApproved(s.marks, u, p.id))
      && (p.ApproveActivate? ==> s.staged[u].category == Empty)
  }

  ghost predicate ArrivalFits(marks: seq<Mark>, k: int, u: string)
    requires 0 <= k < |marks|
  {
    marks[k].Arrived? && marks[k].user == u ==> marks[k].category == Empty && EntryApproved(marks[..k], u, marks[k].id)
  }

  ghost predicate EntryInv(s: State, u: string) {
    && (u in s.staged && s.staged[u].category == Pending ==> EntryVerified(s.marks, u, s.staged[u].id))
    && (forall h :: h in s.handlers ==> WriterFits(s, s.handlers[h], u))
    && (forall k :: 0 <= k < |s.marks| ==> ArrivalFits(s.marks, k, u))
  }

  lemma PendingStaysVerified(s: State, e: Event, u: string)
    requires Shaped(s) && EntryInv(s, u) && Enabled(s, e)
    ensures var s' := Apply(true, s, e);
      u in s'.staged && s'.staged[u].category == Pending ==> EntryVerified(s'.marks, u, s'.staged[u].id)
  {
    var s' := Apply(true, s, e);
    if u in s.staged {
      EntryMarksKept(s.marks, s'.marks, u, s.staged[u].id);
    }
    if e.Call? {
      assert WriterFits(s, s.handlers[e.hid], u);
    }
  }

  lemma MoverFits(s: State, e: Event, u: string)
    requires Shaped(s) && EntryInv(s, u) && Enabled(s, e)
    ensures WriterFits(Apply(true, s, e), Apply(true, s, e).handlers[e.hid], u)
  {
    if e.Call? {
      var p := s.handlers[e.hid];
      var ok, effective := Reported(s, p, e.outcome), Effective(s, p, e.outcome);
      assert WriterFits(s, p, u);
      ComesFrom(true, s, p, ok, effective);
      ReaderFits(s, p, ok, effective, u);
      ClearerFits(s, p, ok, effective, u);
      assert WriterFits(Apply(true, s, e), NextPhase(true, s, p, ok, effective), u);
    }
  }

  /** A handler that has just read the entry. */
  lemma ReaderFits(s: State, p: Phase, ok: bool, effective: bool, u: string)
    requires ok || effective ==> Possible(s, p)
    requires u in s.staged && s.staged[u].category == Pending ==> EntryVerified(s.marks, u, s.staged[u].id)
    ensures ok && p.VerifyShow? && p.user == u ==> EntryVerified(MarksAfter(s, p, ok, effective), u, s.staged[u].id)
    ensures ok && p == ApproveShow(u) && s.staged[u].category == Pending ==> EntryApproved(MarksAfter(s, p, ok, effective), u, s.staged[u].id)
  {
    if ok && p.VerifyShow? && p.user == u {
      NewEntryMark(s.marks, Verified(u, OwnerOf(s, p.link), s.staged[u].id));
    } else if ok && p == ApproveShow(u) && s.staged[u].category == Pending {
      NewEntryMark(s.marks, Approved(u, s.staged[u].id));
    }
  }

  /** An approval that has just cleared its entry. */
  lemma ClearerFits(s: State, p: Phase, ok: bool, effective: bool, u: string)
    requires ok || effective ==> Possible(s, p)
    requires ok ==> effective
    ensures p.ApproveClear? && p.user == u && ok ==>
      && u in StagedAfter(s, p, effective) && StagedAfter(s, p, effective)[u] == Entry(s.staged[u].id, Empty)
      && MarksAfter(s, p, ok, effective) == s.marks
  {
  }

  lemma OtherFits(s: State, e: Event, u: string, h: nat)
    requires Shaped(s) && EntryInv(s, u) && Solo(s, u) && Enabled(s, e) && h in s.handlers && h != e.hid
    ensures WriterFits(Apply(true, s, e), s.handlers[h], u)
  {
    assert WriterFits(s, s.handlers[h], u);
    if Writer(s.handlers[h], u) {
      EntryMarksKept(s.marks, Apply(true, s, e).marks, u, s.staged[u].id);
    }
  }

  lemma ArrivalsFit(s: State, e: Event, u: string, k: nat)
    requires Shaped(s) && EntryInv(s, u) && Enabled(s, e) && k < |Apply(true, s, e).marks|
    ensures ArrivalFits(Apply(true, s, e).marks, k, u)
  {
    var s' := Apply(true, s, e);
    if k < |s.marks| {
      assert s'.marks[..k] == s.marks[..k] && s'.marks[k] == s.marks[k];
      assert ArrivalFits(s.marks, k, u);
    } else {
      assert s'.marks[..k] == s.marks;
      assert WriterFits(s, s.handlers[e.hid], u);
    }
  }

  lemma {:induction false} RunKeepsEntryInv(states: seq<State>, events: seq<Event>, i: nat, u: string)
    requires Run(true, states, events) && i <= |events| && forall j :: 0 <= j < i ==> Solo(states[j], u)
    ensures EntryInv(states[i], u)
  {
    if i > 0 {
      assert StepAt(true, states, events, i - 1);
      RunKeepsEntryInv(states, events, i - 1, u);
      RunKeepsShaped(states, events, i - 1);
      var s, e, s' := states[i - 1], events[i - 1], states[i];
      PendingStaysVerified(s, e, u);
      forall h | h in s'.handlers ensures WriterFits(s', s'.handlers[h], u) {
        if h == e.hid {
          MoverFits(s, e, u);
        } else {
          OtherFits(s, e, u, h);
        }
      }
      forall k | 0 <= k < |s'.marks| ensures ArrivalFits(s'.marks, k, u) {
        ArrivalsFit(s, e, u, k);
      }
    }
  }

  /** With approval required, and as long as no two handlers are about to write this
      user's staged entry, what arrives under the name is an entry that was itself
      verified and then approved, with an empty category; whichever calls fail and
      whatever the handlers of other users do. */
  lemma {:induction false} ArrivesVerifiedAndApproved(states: seq<State>, events: seq<Event>, k: nat, u: string)
    requires Run(true, states, events) && forall j :: 0 <= j < |events| ==> Solo(states[j], u)
    requires k < |states[|events|].marks| && states[|events|].marks[k].Arrived? && states[|events|].marks[k].user == u
    ensures var marks := states[|events|].marks; marks[k].category == Empty && EntryApproved(marks[..k], u, marks[k].id)
  {
    RunKeepsEntryInv(states, events, |events|, u);
    assert ArrivalFits(states[|events|].marks, k, u);
  }

  // ---- Runs in which handlers of one user overlap ----

  /** An approval is about to activate an entry that a denial is about to delete. */
  lemma ApprovedWhileDenied(u: string) returns (s: State, h: nat, d: nat)
    ensures CanReach(true, Init, s) && h != d && {h, d} <= s.handlers.Keys
    ensures s.handlers[h] == ApproveActivate(u, 0) && s.handlers[d] == DenyDelete(u, 0)
    ensures s.staged == map[u := Entry(0, Empty)] && s.active == map[] && s.signups == 1 && s.marks == [Verified(u, Some(0), 0), Approved(u, 0)]
  {
    s := SignupVerified(u);
    s, d := DenyReadsStaged(Init, s, u);
    s, h := ApprovedAndCleared(Init, s, u);
  }

  /** The denial deletes the entry, the name signs up again, and the approval activates
      an entry that was neither verified nor approved. */
  lemma OverlapDeliversStranger(u: string) returns (s: State)
    ensures CanReach(true, Init, s) && s.active == map[u := Account(Unverified, false, SelfSignup(1))]
    ensures !EntryVerified(s.marks, u, 1) && !EntryApproved(s.marks, u, 1)
  {
    var h, d, g;
    s, h, d := ApprovedWhileDenied(u);
    s := Told(true, Init, s, d, Done);
    s, g := SignedUpAgain(true, Init, s, u);
    s := Told(true, Init, s, h, Done);
    assert s.marks == [Verified(u, Some(0), 0), Approved(u, 0), Arrived(u, 1, Unverified)];
  }

  /** Two verifications have read the entry; one has marked it, an approval cleared it. */
  lemma ApprovedWhileVerified(u: string) returns (s: State, h: nat, v: nat)
    ensures CanReach(true, Init, s) && h != v && {h, v} <= s.handlers.Keys
    ensures s.handlers[h] == ApproveActivate(u, 0) && s.handlers[v] == VerifyPend(u, 0, 0)
    ensures s.staged == map[u := Entry(0, Empty)] && s.active == map[]
  {
    ReachSelf(true, Init);
    s, h := SignedUpAgain(true, Init, Init, u);
    s := Mailed(true, Init, s, h);
    s, v := VerifyReads(Init, s, u, 0);
    s, h := VerifiedPending(Init, s, u, 0);
    s, h := ApprovedAndCleared(Init, s, u);
  }

  /** The other verification writes between the two calls of the approval. */
  lemma OverlapDeliversPending(u: string) returns (s: State)
    ensures CanReach(true, Init, s) && s.active == map[u := Account(Pending, false, SelfSignup(0))]
  {
    var h, v;
    s, h, v := ApprovedWhileVerified(u);
    s := Told(true, Init, s, v, Done);
    s := Told(true, Init, s, h, Done);
  }
}
