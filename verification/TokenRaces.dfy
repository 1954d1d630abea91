/** Overlapping requests for token mails, one storage call or delivery per step. The
    issue check, the marker and the rollback after a failed delivery are separate
    steps, and the rollback deletes whatever marker it finds. Times in milliseconds;
    the cooldown is positive. */
module TokenRaces {
  import opened Keys
  import opened Numbers

  /** Whose marker: the keys of different kinds and names never meet. */
  datatype Id = Id(kind: Kind, name: string)

  datatype Request =
    | Checked(id: Id)
    | Sending(id: Id, issued: int)
    | Failed(id: Id)

  datatype Mail = Mail(id: Id, issued: int)

  datatype State = State(now: int, markers: map<Id, int>, requests: map<nat, Request>, mails: seq<Mail>)

  const Init := State(0, map[], map[], [])

  datatype Event =
    | Tick(ms: nat)
    | Check(rid: nat, id: Id)
    | Issue(rid: nat)
    | Deliver(rid: nat)
    | Fail(rid: nat)
    | RollBack(rid: nat, works: bool)

  predicate Alive(s: State, id: Id) {
    id in s.markers && s.now < s.markers[id]
  }

  predicate Enabled(s: State, e: Event) {
    match e
    case Tick(_) => true
    case Check(rid, id) => rid !in s.requests && !Alive(s, id)
    case Issue(rid) => rid in s.requests && s.requests[rid].Checked?
    case Deliver(rid) => rid in s.requests && s.requests[rid].Sending?
    case Fail(rid) => rid in s.requests && s.requests[rid].Sending?
    case RollBack(rid, _) => rid in s.requests && s.requests[rid].Failed?
  }

  function Apply(cooldown: nat, s: State, e: Event): State
    requires Enabled(s, e)
  {
    match e
    case Tick(ms) => s.(now := s.now + ms)
    case Check(rid, id) => s.(requests := s.requests[rid := Checked(id)])
    case Issue(rid) =>
      var id := s.requests[rid].id;
      s.(markers := s.markers[id := s.now + cooldown], requests := s.requests[rid := Sending(id, s.now)])
    case Deliver(rid) =>
      s.(mails := s.mails + [Mail(s.requests[rid].id, s.requests[rid].issued)], requests := s.requests - {rid})
    case Fail(rid) => s.(requests := s.requests[rid := Failed(s.requests[rid].id)])
    case RollBack(rid, works) =>
      s.(markers := if works then s.markers - {s.requests[rid].id} else s.markers, requests := s.requests - {rid})
  }

  predicate Continues(cooldown: nat, s: State, states: seq<State>, events: seq<Event>) {
    && |states| == |events| + 1
    && states[0] == s
    && forall i :: 0 <= i < |events| ==> Enabled(states[i], events[i]) && states[i + 1] == Apply(cooldown, states[i], events[i])
  }

  ghost predicate CanReach(cooldown: nat, s: State, t: State) {
    exists states: seq<State>, events: seq<Event> :: Continues(cooldown, s, states, events) && states[|events|] == t
  }

  lemma ReachSelf(cooldown: nat, s: State)
    ensures CanReach(cooldown, s, s)
  {
    assert Continues(cooldown, s, [s], []);
  }

  lemma ReachStep(cooldown: nat, s: State, t: State, e: Event) returns (t': State)
    requires CanReach(cooldown, s, t) && Enabled(t, e)
    ensures t' == Apply(cooldown, t, e) && CanReach(cooldown, s, t')
  {
    var states: seq<State>, events: seq<Event> :| Continues(cooldown, s, states, events) && states[|events|] == t;
    t' := Apply(cooldown, t, e);
    assert Continues(cooldown, s, states + [t'], events + [e]);
  }

  // ---- The spacing of later mails ----

  /** Every mail of that id added to the first `n` was issued at `earliest` or later. */
  ghost predicate SpacedFrom(mails: seq<Mail>, n: nat, id: Id, earliest: int) {
    n <= |mails| && forall i :: n <= i < |mails| && mails[i].id == id ==> earliest <= mails[i].issued
  }

  /** Whatever happens after `s`, no mail of that id is issued before `earliest`. */
  ghost predicate NeverBefore(cooldown: nat, s: State, id: Id, earliest: int) {
    forall t :: CanReach(cooldown, s, t) ==> SpacedFrom(t.mails, |s.mails|, id, earliest)
  }

  /** No mail on its way was issued too early; and the time has come, or a marker
      stands until then and no other request is past its check. */
  predicate Held(s: State, id: Id, earliest: int) {
    && (forall r :: r in s.requests && s.requests[r].id == id && s.requests[r].Sending? ==> earliest <= s.requests[r].issued)
    && (earliest <= s.now ||
        (id in s.markers && earliest <= s.markers[id] && forall r :: r in s.requests ==> s.requests[r].id != id))
  }

  lemma StepKeepsHeld(cooldown: nat, s: State, e: Event, id: Id, earliest: int)
    requires Enabled(s, e) && Held(s, id, earliest)
    ensures Held(Apply(cooldown, s, e), id, earliest)
  {
  }

  lemma {:induction false} HeldMeansNever(cooldown: nat, s: State, states: seq<State>, events: seq<Event>, i: nat, id: Id, earliest: int)
    requires Continues(cooldown, s, states, events) && i <= |events| && Held(s, id, earliest)
    ensures Held(states[i], id, earliest) && SpacedFrom(states[i].mails, |s.mails|, id, earliest)
  {
    if i > 0 {
      HeldMeansNever(cooldown, s, states, events, i - 1, id, earliest);
      StepKeepsHeld(cooldown, states[i - 1], events[i - 1], id, earliest);
    }
  }

  /** A request past its check gets its mail out now. */
  lemma CheckedDelivers(cooldown: nat, s: State, t: State, rid: nat, id: Id, earliest: int)
    requires CanReach(cooldown, s, t) && |s.mails| <= |t.mails| && t.now < earliest
    requires rid in t.requests && t.requests[rid] == Checked(id)
    ensures !NeverBefore(cooldown, s, id, earliest)
  {
    var t1 := ReachStep(cooldown, s, t, Issue(rid));
    var t2 := ReachStep(cooldown, s, t1, Deliver(rid));
    assert t2.mails[|t.mails|] == Mail(id, t.now);
  }

  /** So does a new request once no marker is alive. */
  lemma UnmarkedDelivers(cooldown: nat, s: State, t: State, id: Id, earliest: int)
    requires CanReach(cooldown, s, t) && |s.mails| <= |t.mails| && t.now < earliest && !Alive(t, id)
    ensures !NeverBefore(cooldown, s, id, earliest)
  {
    var rid := FreshNumber(t.requests.Keys);
    var t1 := ReachStep(cooldown, s, t, Check(rid, id));
    CheckedDelivers(cooldown, s, t1, rid, id, earliest);
  }

  /** Mails on their way were issued by now. */
  ghost predicate Dated(s: State) {
    forall r :: r in s.requests && s.requests[r].Sending? ==> s.requests[r].issued <= s.now
  }

  lemma {:induction false} RunKeepsDated(cooldown: nat, states: seq<State>, events: seq<Event>, i: nat)
    requires Continues(cooldown, Init, states, events) && i <= |events|
    ensures Dated(states[i])
  {
    if i > 0 {
      RunKeepsDated(cooldown, states, events, i - 1);
    }
  }

  lemma NotHeldReissues(cooldown: nat, s: State, id: Id, earliest: int)
    requires !Held(s, id, earliest)
    requires Dated(s)
    ensures !NeverBefore(cooldown, s, id, earliest)
  {
    ReachSelf(cooldown, s);
    if early :| early in s.requests && s.requests[early].id == id && s.requests[early].Sending? && s.requests[early].issued < earliest {
      var t := ReachStep(cooldown, s, s, Deliver(early));
      assert t.mails[|s.mails|] == Mail(id, s.requests[early].issued);
    } else if r :| r in s.requests && s.requests[r].id == id {
      if s.requests[r].Checked? {
        CheckedDelivers(cooldown, s, s, r, id, earliest);
      } else {
        var t := ReachStep(cooldown, s, s, RollBack(r, true));
        UnmarkedDelivers(cooldown, s, t, id, earliest);
      }
    } else if Alive(s, id) {
      var t := ReachStep(cooldown, s, s, Tick(s.markers[id] - s.now));
      UnmarkedDelivers(cooldown, s, t, id, earliest);
    } else {
      UnmarkedDelivers(cooldown, s, s, id, earliest);
    }
  }

  /** The cooldown of a mail issued at `issued` is kept by everything that may follow
      if and only if no mail on its way was issued inside it and, unless it is over,
      a marker stands to its end and no other request is past its check. */
  lemma CooldownKeptIff(cooldown: nat, s: State, id: Id, issued: int)
    requires Dated(s)
    ensures NeverBefore(cooldown, s, id, issued + cooldown) <==> Held(s, id, issued + cooldown)
  {
    if Held(s, id, issued + cooldown) {
      forall t | CanReach(cooldown, s, t) ensures SpacedFrom(t.mails, |s.mails|, id, issued + cooldown) {
        var states: seq<State>, events: seq<Event> :| Continues(cooldown, s, states, events) && states[|events|] == t;
        HeldMeansNever(cooldown, s, states, events, |events|, id, issued + cooldown);
      }
    } else {
      NotHeldReissues(cooldown, s, id, issued + cooldown);
    }
  }

  // ---- Requests that do not overlap ----

  /** At most one request for the id is in flight. */
  predicate Solo(s: State, id: Id) {
    forall r, q :: r in s.requests && q in s.requests && r != q && s.requests[r].id == id ==> s.requests[q].id != id
  }

  /** Mails on their way have their marker. */
  ghost predicate OnTheWay(cooldown: nat, s: State, id: Id) {
    && Dated(s)
    && (forall r :: r in s.requests && s.requests[r].id == id && s.requests[r].Sending? ==>
          id in s.markers && s.markers[id] == s.requests[r].issued + cooldown)
  }

  predicate Apart(cooldown: nat, mails: seq<Mail>, id: Id) {
    forall i, j :: 0 <= i < j < |mails| && mails[i].id == id && mails[j].id == id ==> mails[i].issued + cooldown <= mails[j].issued
  }

  /** All mails out are apart, and everything that may follow keeps away from them. */
  ghost predicate Spaced(cooldown: nat, s: State, id: Id) {
    && OnTheWay(cooldown, s, id) && Apart(cooldown, s.mails, id)
    && forall i :: 0 <= i < |s.mails| && s.mails[i].id == id ==> Held(s, id, s.mails[i].issued + cooldown)
  }

  lemma DeliverKeepsSpaced(cooldown: nat, s: State, rid: nat, id: Id)
    requires Enabled(s, Deliver(rid)) && Solo(s, id) && Spaced(cooldown, s, id)
    ensures Apart(cooldown, Apply(cooldown, s, Deliver(rid)).mails, id)
    ensures s.requests[rid].id == id ==> Held(Apply(cooldown, s, Deliver(rid)), id, s.requests[rid].issued + cooldown)
  {
    var m := Mail(s.requests[rid].id, s.requests[rid].issued);
    forall i | 0 <= i < |s.mails| && s.mails[i].id == id && m.id == id ensures s.mails[i].issued + cooldown <= m.issued {
      assert Held(s, id, s.mails[i].issued + cooldown);
    }
  }

  lemma StepKeepsSpaced(cooldown: nat, s: State, e: Event, id: Id)
    requires Enabled(s, e) && Solo(s, id) && Spaced(cooldown, s, id)
    ensures Spaced(cooldown, Apply(cooldown, s, e), id)
  {
    var s' := Apply(cooldown, s, e);
    if e.Deliver? {
      DeliverKeepsSpaced(cooldown, s, e.rid, id);
    }
    forall i | 0 <= i < |s'.mails| && s'.mails[i].id == id ensures Held(s', id, s'.mails[i].issued + cooldown) {
      if i < |s.mails| {
        StepKeepsHeld(cooldown, s, e, id, s.mails[i].issued + cooldown);
      }
    }
  }

  /** In every run in which requests for one id do not overlap, its mails are issued
      at least the cooldown apart, and everything that may follow keeps it. */
  lemma {:induction false} SoloKeepsCooldown(cooldown: nat, states: seq<State>, events: seq<Event>, n: nat, id: Id)
    requires Continues(cooldown, Init, states, events) && n <= |events| && forall i :: 0 <= i < n ==> Solo(states[i], id)
    ensures Spaced(cooldown, states[n], id)
  {
    if n > 0 {
      SoloKeepsCooldown(cooldown, states, events, n - 1, id);
      StepKeepsSpaced(cooldown, states[n - 1], events[n - 1], id);
    }
  }

  /** A run in which a failed delivery rolls back the marker of a mail that was
      delivered, and the next mail follows at once. */
  lemma RollbackFreesDeliveredMail(cooldown: nat, id: Id) returns (s: State)
    ensures CanReach(cooldown, Init, s) && s.mails == [Mail(id, 0), Mail(id, 0)] && s.now == 0
  {
    s := DeliveredThenRolledBack(cooldown, id);
    s := ReachStep(cooldown, Init, s, Check(2, id));
    s := ReachStep(cooldown, Init, s, Issue(2));
    s := ReachStep(cooldown, Init, s, Deliver(2));
  }

  lemma DeliveredThenRolledBack(cooldown: nat, id: Id) returns (s: State)
    ensures CanReach(cooldown, Init, s) && s == State(0, map[], map[], [Mail(id, 0)])
  {
    s := BothSending(cooldown, id);
    s := ReachStep(cooldown, Init, s, Deliver(1));
    s := ReachStep(cooldown, Init, s, Fail(0));
    s := ReachStep(cooldown, Init, s, RollBack(0, true));
  }

  lemma BothSending(cooldown: nat, id: Id) returns (s: State)
    ensures CanReach(cooldown, Init, s) && s == State(0, map[id := cooldown], map[0 := Sending(id, 0), 1 := Sending(id, 0)], [])
  {
    ReachSelf(cooldown, Init);
    s := ReachStep(cooldown, Init, Init, Check(0, id));
    s := ReachStep(cooldown, Init, s, Check(1, id));
    s := ReachStep(cooldown, Init, s, Issue(0));
    s := ReachStep(cooldown, Init, s, Issue(1));
  }
}
