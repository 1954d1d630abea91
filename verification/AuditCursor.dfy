/** Recorders and a polling API client, step by step. Taking a sequence number and
    writing the slot are separate steps of a recorder; a poll reads the counter
    and then one slot after the other. Everything may interleave. */
module AuditCursor {
  import opened Wrappers
  import opened AuditRing

  /** A poll under way: slots up to `at` have been read, `upTo` is the counter it saw.
      `passed` remembers the numbers whose slots it read while they were in flight. */
  datatype Poll = Poll(at: nat, upTo: nat, limit: nat, found: seq<AuditEvent>, passed: set<nat>)

  /** `log` is the unbounded log: entry i - 1 got number i. `skipped` remembers the
      numbers that a poll passed in flight and went beyond by finding a later event. */
  datatype State = State(
    log: seq<AuditEvent>,
    slots: Slots,
    inFlight: set<nat>,
    cursor: nat,
    received: seq<AuditEvent>,
    poll: Option<Poll>,
    skipped: set<nat>)

  const Init := State([], map[], {}, 0, [], None, {})

  datatype Event =
    | Incr(event: AuditEvent)
    | Write(seqno: nat)
    | Drop(seqno: nat)
    | PollBegin(limit: nat)
    | PollRead
    | PollEnd

  function Count(s: State): nat { |s.log| }

  predicate Reading(p: Poll) {
    p.at < p.upTo && |p.found| < p.limit
  }

  predicate Enabled(s: State, e: Event) {
    match e
    case Incr(event) => event.seqno == Count(s) + 1
    case Write(seqno) => seqno in s.inFlight && 1 <= seqno <= Count(s)
    case Drop(seqno) => seqno in s.inFlight
    case PollBegin(limit) => s.poll.None? && 1 <= limit <= RING_SIZE
    case PollRead => s.poll.Some? && Reading(s.poll.value)
    case PollEnd => s.poll.Some? && !Reading(s.poll.value)
  }

  function Apply(s: State, e: Event): State
    requires Enabled(s, e)
  {
    match e
    case Incr(event) => s.(log := s.log + [event], inFlight := s.inFlight + {event.seqno})
    case Write(seqno) => s.(slots := s.slots[Slot(seqno) := s.log[seqno - 1]], inFlight := s.inFlight - {seqno})
    case Drop(seqno) => s.(inFlight := s.inFlight - {seqno})
    case PollBegin(limit) => s.(poll := Some(Poll(ResumeAt(s.cursor, Count(s)), Count(s), limit, [], {})))
    case PollRead =>
      var p := s.poll.value;
      s.(poll := Some(p.(at := p.at + 1, found := p.found + Numbered(s.slots, p.at + 1),
                         passed := if p.at + 1 in s.inFlight then p.passed + {p.at + 1} else p.passed)))
    case PollEnd =>
      // the answer carries the events and, as `next`, the last number or the old cursor
      var p := s.poll.value;
      var next := if p.found == [] then s.cursor else p.found[|p.found| - 1].seqno;
      s.(poll := None, received := s.received + p.found, cursor := next, skipped := s.skipped + set n | n in p.passed && n <= next)
  }

  predicate Run(states: seq<State>, events: seq<Event>) {
    && |states| == |events| + 1
    && states[0] == Init
    && forall i :: 0 <= i < |events| ==> Enabled(states[i], events[i]) && states[i + 1] == Apply(states[i], events[i])
  }

  /** A recorder whose number is still unwritten may write its slot or fail to at any
      time; either way the number is used up. */
  lemma RecorderEndsEitherWay(s: State, n: nat)
    requires n in s.inFlight && 1 <= n <= |s.log|
    ensures Enabled(s, Write(n)) && Apply(s, Write(n)) == s.(slots := s.slots[n % 1000 := s.log[n - 1]], inFlight := s.inFlight - {n})
    ensures Enabled(s, Drop(n)) && Apply(s, Drop(n)) == s.(inFlight := s.inFlight - {n})
  {
  }

  // ---- Each event at most once, in order, in every interleaving ----

  ghost predicate Increasing(es: seq<AuditEvent>) {
    forall i, j :: 0 <= i < j < |es| ==> es[i].seqno < es[j].seqno
  }

  ghost predicate Within(es: seq<AuditEvent>, lo: nat, hi: nat) {
    forall i :: 0 <= i < |es| ==> lo < es[i].seqno <= hi
  }

  ghost predicate Genuine(es: seq<AuditEvent>, log: seq<AuditEvent>) {
    forall i :: 0 <= i < |es| ==> 1 <= es[i].seqno <= |log| && es[i] == log[es[i].seqno - 1]
  }

  ghost predicate SlotsGenuine(s: State) {
    forall k :: k in s.slots ==> 1 <= s.slots[k].seqno <= |s.log| && s.slots[k] == s.log[s.slots[k].seqno - 1]
  }

  /** Events in order, as recorded, numbered in (lo, hi]. */
  ghost predicate Sound(es: seq<AuditEvent>, log: seq<AuditEvent>, lo: nat, hi: nat) {
    hi <= |log| && Increasing(es) && Genuine(es, log) && Within(es, lo, hi)
  }

  ghost predicate PollSound(s: State, p: Poll) {
    s.cursor <= p.at <= p.upTo <= |s.log| && 1 <= p.limit && Sound(p.found, s.log, s.cursor, p.at)
  }

  ghost predicate Inv(s: State) {
    && NumberedLog(s.log)
    && (forall n :: n in s.inFlight ==> 1 <= n <= |s.log|)
    && SlotsGenuine(s)
    && Sound(s.received, s.log, 0, s.cursor)
    && (s.poll.Some? ==> PollSound(s, s.poll.value))
  }

  lemma SoundConcat(a: seq<AuditEvent>, b: seq<AuditEvent>, log: seq<AuditEvent>, lo: nat, mid: nat, hi: nat)
    requires lo <= mid <= hi && Sound(a, log, lo, mid) && Sound(b, log, mid, hi)
    ensures Sound(a + b, log, lo, hi)
  {
  }

  lemma SoundLonger(es: seq<AuditEvent>, log: seq<AuditEvent>, event: AuditEvent, lo: nat, hi: nat)
    requires Sound(es, log, lo, hi)
    ensures Sound(es, log + [event], lo, hi)
  {
  }

  lemma IncrKeepsInv(s: State, event: AuditEvent)
    requires Inv(s) && Enabled(s, Incr(event))
    ensures Inv(Apply(s, Incr(event)))
  {
    SoundLonger(s.received, s.log, event, 0, s.cursor);
    if s.poll.Some? {
      SoundLonger(s.poll.value.found, s.log, event, s.cursor, s.poll.value.at);
    }
  }

  lemma ReadKeepsInv(s: State)
    requires Inv(s) && Enabled(s, PollRead)
    ensures Inv(Apply(s, PollRead))
  {
    var p := s.poll.value;
    var more := Numbered(s.slots, p.at + 1);
    assert more == [] || (more == [s.log[p.at]] && more[0].seqno == p.at + 1);
    assert Sound(more, s.log, p.at, p.at + 1);
    SoundConcat(p.found, more, s.log, s.cursor, p.at, p.at + 1);
  }

  lemma EndKeepsInv(s: State)
    requires Inv(s) && Enabled(s, PollEnd)
    ensures Inv(Apply(s, PollEnd))
  {
    var found := s.poll.value.found;
    if found == [] {
      assert s.received + found == s.received;
    } else {
      var last := found[|found| - 1].seqno;
      assert Sound(found, s.log, s.cursor, last);
      SoundConcat(s.received, found, s.log, 0, s.cursor, last);
    }
  }

  lemma StepKeepsInv(s: State, e: Event)
    requires Inv(s) && Enabled(s, e)
    ensures Inv(Apply(s, e))
  {
    match e {
      case Incr(event) => IncrKeepsInv(s, event);
      case PollRead => ReadKeepsInv(s);
      case PollEnd => EndKeepsInv(s);
      case _ =>
    }
  }

  lemma {:induction false} RunKeepsInv(states: seq<State>, events: seq<Event>, i: nat)
    requires Run(states, events) && i <= |events|
    ensures Inv(states[i])
  {
    if i > 0 {
      RunKeepsInv(states, events, i - 1);
      StepKeepsInv(states[i - 1], events[i - 1]);
    }
  }

  /** A client that starts at cursor 0 and feeds `next` back gets strictly
      increasing numbers, hence no event twice, and every event as recorded. */
  lemma {:induction false} EachEventOnce(states: seq<State>, events: seq<Event>)
    requires Run(states, events)
    ensures var s := states[|events|];
      && (forall i, j :: 0 <= i < j < |s.received| ==> s.received[i].seqno < s.received[j].seqno)
      && (forall i :: 0 <= i < |s.received| ==>
            1 <= s.received[i].seqno <= |s.log| && s.received[i] == s.log[s.received[i].seqno - 1])
  {
    RunKeepsInv(states, events, |events|);
  }

  // ---- What the client can miss ----

  /** Recorders write their slot before the counter comes round to it again, and no
      write is lost. */
  predicate Prompt(s: State, e: Event) {
    (e.Write? ==> Count(s) < e.seqno + RING_SIZE) && !e.Drop?
  }

  /** Besides, a poll starts when no record is in flight. Records may still come in
      while it is reading. */
  predicate Calm(s: State, e: Event) {
    Prompt(s, e) && (e.PollBegin? ==> s.inFlight == {})
  }

  ghost predicate Has(es: seq<AuditEvent>, n: nat) {
    exists i :: 0 <= i < |es| && es[i].seqno == n
  }

  /** At least a ring behind the counter. */
  predicate Behind(n: nat, count: nat) {
    n + RING_SIZE <= count
  }

  /** Every written entry the ring should still hold is in its slot. */
  ghost predicate RingCurrent(s: State) {
    forall n :: 1 <= n <= |s.log| && n !in s.inFlight && !Behind(n, |s.log|) ==>
      Slot(n) in s.slots && s.slots[Slot(n)] == s.log[n - 1]
  }

  ghost predicate Covers(es: seq<AuditEvent>, lo: nat, hi: nat, count: nat, except: set<nat>) {
    forall n :: lo < n <= hi ==> Has(es, n) || Behind(n, count) || n in except
  }

  ghost predicate Complete(s: State) {
    && RingCurrent(s)
    && Covers(s.received, 0, s.cursor, |s.log|, s.skipped)
    && (s.poll.Some? ==> Covers(s.poll.value.found, s.cursor, s.poll.value.at, |s.log|, s.poll.value.passed))
  }

  lemma SameSlot(m: nat, n: nat)
    requires m < n && Slot(m) == Slot(n)
    ensures m + RING_SIZE <= n
  {
  }

  lemma PromptWriteKeepsRing(s: State, n: nat)
    requires Inv(s) && RingCurrent(s) && Enabled(s, Write(n)) && Prompt(s, Write(n))
    ensures RingCurrent(Apply(s, Write(n)))
  {
    forall m | 1 <= m <= |s.log| && m !in s.inFlight - {n} && !Behind(m, |s.log|)
      ensures Slot(m) in Apply(s, Write(n)).slots && Apply(s, Write(n)).slots[Slot(m)] == s.log[m - 1]
    {
      if m < n && Slot(m) == Slot(n) {
        SameSlot(m, n);
      } else if n < m && Slot(m) == Slot(n) {
        SameSlot(n, m);
      }
    }
  }

  lemma HasConcat(a: seq<AuditEvent>, b: seq<AuditEvent>, n: nat)
    ensures Has(a + b, n) <==> Has(a, n) || Has(b, n)
  {
    if Has(a, n) {
      var i :| 0 <= i < |a| && a[i].seqno == n;
      assert (a + b)[i] == a[i];
    }
    if Has(b, n) {
      var i :| 0 <= i < |b| && b[i].seqno == n;
      assert (a + b)[|a| + i] == b[i];
    }
  }

  lemma ReadKeepsComplete(s: State)
    requires Inv(s) && Complete(s) && Enabled(s, PollRead)
    ensures Complete(Apply(s, PollRead))
  {
    var p := s.poll.value;
    var more := Numbered(s.slots, p.at + 1);
    forall n | s.cursor < n <= p.at + 1 ensures Has(p.found + more, n) || Behind(n, |s.log|) || n in Apply(s, PollRead).poll.value.passed {
      HasConcat(p.found, more, n);
      if n == p.at + 1 && !Behind(n, |s.log|) && n !in s.inFlight {
        assert more[0].seqno == n;
      }
    }
  }

  lemma EndKeepsComplete(s: State)
    requires Inv(s) && Complete(s) && Enabled(s, PollEnd)
    ensures Complete(Apply(s, PollEnd))
  {
    var p := s.poll.value;
    var s' := Apply(s, PollEnd);
    forall n | 0 < n <= s'.cursor ensures Has(s'.received, n) || Behind(n, |s.log|) || n in s'.skipped {
      HasConcat(s.received, p.found, n);
      if s.cursor < n {
        assert p.found[|p.found| - 1].seqno <= p.at;
      }
    }
  }

  lemma StepKeepsComplete(s: State, e: Event)
    requires Inv(s) && Complete(s) && Enabled(s, e) && Prompt(s, e)
    ensures Complete(Apply(s, e))
  {
    match e {
      case Incr(_) =>
      case Write(n) => PromptWriteKeepsRing(s, n);
      case PollBegin(_) =>
      case PollRead => ReadKeepsComplete(s);
      case PollEnd => EndKeepsComplete(s);
      case Drop(_) =>
    }
  }

  lemma {:induction false} RunKeepsComplete(states: seq<State>, events: seq<Event>, i: nat)
    requires Run(states, events) && i <= |events|
    requires forall k :: 0 <= k < i ==> Prompt(states[k], events[k])
    ensures Complete(states[i])
  {
    if i > 0 {
      RunKeepsComplete(states, events, i - 1);
      RunKeepsInv(states, events, i - 1);
      StepKeepsComplete(states[i - 1], events[i - 1]);
    }
  }

  /** What a client has received it keeps, and recorded events stay as they are. */
  lemma {:induction false} OnlyGrows(states: seq<State>, events: seq<Event>, i: nat, j: nat)
    requires Run(states, events) && i <= j <= |events|
    ensures states[i].received <= states[j].received && states[i].log <= states[j].log
  {
    if i < j {
      OnlyGrows(states, events, i, j - 1);
    }
  }

  /** A poll has read up to the counter it saw when it began. */
  predicate CaughtUp(s: State) {
    s.poll.Some? && s.poll.value.at == s.poll.value.upTo
  }

  /** Nothing was passed in flight, and the poll under way will not do so. */
  ghost predicate NothingPassed(s: State) {
    s.skipped == {} && (s.poll.Some? ==> s.poll.value.passed == {} && forall n :: n in s.inFlight ==> s.poll.value.upTo < n)
  }

  lemma {:induction false} CalmPassesNothing(states: seq<State>, events: seq<Event>, i: nat)
    requires Run(states, events) && i <= |events| && forall k :: 0 <= k < i ==> Calm(states[k], events[k])
    ensures NothingPassed(states[i])
  {
    if i > 0 {
      CalmPassesNothing(states, events, i - 1);
      RunKeepsInv(states, events, i - 1);
    }
  }

  /** In a calm run the client misses only events a full ring or more behind the
      counter: when a poll that caught up ends (step `i`), every event up to the
      counter it saw has left the ring by then or is among what the client has
      received, then and ever after. */
  lemma {:induction false} MissesOnlyWhatLeftTheRing(states: seq<State>, events: seq<Event>, i: nat, n: nat)
    requires Run(states, events) && i < |events| && forall k :: 0 <= k < i ==> Calm(states[k], events[k])
    requires events[i].PollEnd? && CaughtUp(states[i])
    requires 1 <= n <= states[i].poll.value.upTo && !Behind(n, |states[i].log|)
    ensures n <= |states[|events|].log| && states[|events|].log[n - 1] in states[|events|].received
  {
    RunKeepsComplete(states, events, i);
    RunKeepsInv(states, events, i);
    CalmPassesNothing(states, events, i);
    var s := states[i];
    HasConcat(s.received, s.poll.value.found, n);
    ReceivedIsKept(states, events, i + 1, n);
  }

  lemma {:induction false} ReceivedIsKept(states: seq<State>, events: seq<Event>, i: nat, n: nat)
    requires Run(states, events) && i <= |events| && Has(states[i].received, n)
    ensures 1 <= n <= |states[|events|].log| && states[|events|].log[n - 1] in states[|events|].received
  {
    RunKeepsInv(states, events, i);
    OnlyGrows(states, events, i, |events|);
    var s := states[i];
    var k :| 0 <= k < |s.received| && s.received[k].seqno == n;
    assert s.received[k] == s.log[n - 1] && states[|events|].received[k] == s.received[k];
  }

  /** A poll that did not catch up was cut by its limit, and brings the client on:
      it received that many events more and its cursor moved past them. */
  lemma {:induction false} PollsBringOn(states: seq<State>, events: seq<Event>, i: nat)
    requires Run(states, events) && i < |events| && events[i].PollEnd? && !CaughtUp(states[i])
    ensures |states[i + 1].received| >= |states[i].received| + states[i].poll.value.limit
    ensures states[i + 1].cursor > states[i].cursor
  {
    RunKeepsInv(states, events, i);
    var found := states[i].poll.value.found;
    assert found != [] && found[|found| - 1].seqno > states[i].cursor;
  }

  // ---- Polls while records are in flight ----

  /** What was passed in flight was not found there, and its slot does not hold it. */
  ghost predicate Unseen(s: State) {
    && (forall n :: n in s.inFlight ==> (Slot(n) in s.slots ==> s.slots[Slot(n)].seqno != n))
    && (forall n :: n in s.skipped ==> 1 <= n <= s.cursor && !Has(s.received, n))
    && (s.poll.Some? ==> forall n :: n in s.poll.value.passed ==> s.cursor < n <= s.poll.value.at && !Has(s.poll.value.found, n))
  }

  lemma ReadKeepsUnseen(s: State)
    requires Inv(s) && Unseen(s) && Enabled(s, PollRead)
    ensures Unseen(Apply(s, PollRead))
  {
    var p, p' := s.poll.value, Apply(s, PollRead).poll.value;
    var more := Numbered(s.slots, p.at + 1);
    forall n | n in p'.passed ensures s.cursor < n <= p'.at && !Has(p'.found, n) {
      HasConcat(p.found, more, n);
      assert n == p.at + 1 ==> !Has(p.found, n);
    }
  }

  lemma EndKeepsUnseen(s: State)
    requires Inv(s) && Unseen(s) && Enabled(s, PollEnd)
    ensures Unseen(Apply(s, PollEnd))
  {
    var p, s' := s.poll.value, Apply(s, PollEnd);
    forall n | n in s'.skipped ensures 1 <= n <= s'.cursor && !Has(s'.received, n) {
      HasConcat(s.received, p.found, n);
    }
  }

  lemma StepKeepsUnseen(s: State, e: Event)
    requires Inv(s) && Unseen(s) && Enabled(s, e)
    ensures Unseen(Apply(s, e))
  {
    match e {
      case PollRead => ReadKeepsUnseen(s);
      case PollEnd => EndKeepsUnseen(s);
      case _ =>
    }
  }

  lemma {:induction false} RunKeepsUnseen(states: seq<State>, events: seq<Event>, i: nat)
    requires Run(states, events) && i <= |events|
    ensures Unseen(states[i])
  {
    if i > 0 {
      RunKeepsUnseen(states, events, i - 1);
      RunKeepsInv(states, events, i - 1);
      StepKeepsUnseen(states[i - 1], events[i - 1]);
    }
  }

  /** Polls may start at any time: of the events the cursor has passed, the client
      lacks one that the ring still covers if and only if a poll passed its slot
      while it was in flight and went on to find a later event. */
  lemma {:induction false} MissedIff(states: seq<State>, events: seq<Event>, n: nat)
    requires Run(states, events) && forall k :: 0 <= k < |events| ==> Prompt(states[k], events[k])
    requires var s := states[|events|]; 1 <= n <= s.cursor && !Behind(n, |s.log|)
    ensures var s := states[|events|]; n <= |s.log| && (s.log[n - 1] !in s.received <==> n in s.skipped)
  {
    RunKeepsComplete(states, events, |events|);
    RunKeepsInv(states, events, |events|);
    RunKeepsUnseen(states, events, |events|);
    var s := states[|events|];
    if Has(s.received, n) {
      ReceivedIsKept(states, events, |events|, n);
    }
  }

  /** In a calm run nothing is passed so: the client has all that its cursor passed. */
  lemma {:induction false} CursorCovers(states: seq<State>, events: seq<Event>, i: nat, n: nat)
    requires Run(states, events) && i <= |events| && forall k :: 0 <= k < i ==> Calm(states[k], events[k])
    requires 1 <= n <= states[i].cursor && !Behind(n, |states[i].log|)
    ensures n <= |states[|events|].log| && states[|events|].log[n - 1] in states[|events|].received
  {
    RunKeepsComplete(states, events, i);
    CalmPassesNothing(states, events, i);
    ReceivedIsKept(states, events, i, n);
  }

  /** What the cursor has passed without it never comes later. */
  lemma {:induction false} SkippedForever(states: seq<State>, events: seq<Event>, i: nat, n: nat)
    requires Run(states, events) && i <= |events| && n in states[i].skipped
    ensures n in states[|events|].skipped && !Has(states[|events|].received, n)
    decreases |events| - i
  {
    if i < |events| {
      SkippedForever(states, events, i + 1, n);
    } else {
      RunKeepsUnseen(states, events, i);
    }
  }

  /** A run in which event 1 is in flight while a poll passes it and finds event 2;
      it is written at once, and never received. */
  lemma InFlightEventSkipped() returns (states: seq<State>, events: seq<Event>)
    ensures Run(states, events) && forall k :: 0 <= k < |events| ==> Prompt(states[k], events[k])
    ensures var s := states[|events|]; s.skipped == {1} && s.inFlight == {} && |s.log| == 2 && s.cursor == 2
  {
    states, events := SecondWrittenFirst();
    var s4 := Begins(states[|events|]);
    var s5 := PassesFirst(s4);
    var s6 := FindsSecond(s5);
    var s7 := EndsBeyond(s6);
    states, events := Extended(states, events, PollBegin(10));
    states, events := Extended(states, events, PollRead);
    states, events := Extended(states, events, PollRead);
    states, events := Extended(states, events, PollEnd);
    states, events := Extended(states, events, Write(1));
  }

  lemma Extended(states: seq<State>, events: seq<Event>, e: Event) returns (states': seq<State>, events': seq<Event>)
    requires Run(states, events) && Enabled(states[|events|], e) && Prompt(states[|events|], e)
    requires forall k :: 0 <= k < |events| ==> Prompt(states[k], events[k])
    ensures Run(states', events') && states'[|events'|] == Apply(states[|events|], e)
    ensures forall k :: 0 <= k < |events'| ==> Prompt(states'[k], events'[k])
  {
    states', events' := states + [Apply(states[|events|], e)], events + [e];
  }

  const Two := [AuditEvent(1, "", "", ""), AuditEvent(2, "", "", "")]

  lemma SecondWrittenFirst() returns (states: seq<State>, events: seq<Event>)
    ensures Run(states, events) && |events| == 3 && forall k :: 0 <= k < |events| ==> Prompt(states[k], events[k])
    ensures states[|events|] == State(Two, map[2 := Two[1]], {1}, 0, [], None, {})
  {
    var s1 := Apply(Init, Incr(Two[0]));
    var s2 := Apply(s1, Incr(Two[1]));
    assert s2.log == Two;
    var s3 := Apply(s2, Write(2));
    states, events := [Init, s1, s2, s3], [Incr(Two[0]), Incr(Two[1]), Write(2)];
  }

  lemma Begins(s: State) returns (s': State)
    requires s == State(Two, map[2 := Two[1]], {1}, 0, [], None, {})
    ensures Enabled(s, PollBegin(10)) && s' == Apply(s, PollBegin(10)) && s' == s.(poll := Some(Poll(0, 2, 10, [], {})))
  {
    s' := Apply(s, PollBegin(10));
  }

  lemma EndsBeyond(s: State) returns (s': State)
    requires s == State(Two, map[2 := Two[1]], {1}, 0, [], Some(Poll(2, 2, 10, [Two[1]], {1})), {})
    ensures Enabled(s, PollEnd) && s' == Apply(s, PollEnd) && s' == State(Two, map[2 := Two[1]], {1}, 2, [Two[1]], None, {1})
  {
    s' := Apply(s, PollEnd);
    assert s'.received == [Two[1]] && s'.skipped == {1};
  }

  lemma PassesFirst(s: State) returns (s': State)
    requires s == State(Two, map[2 := Two[1]], {1}, 0, [], Some(Poll(0, 2, 10, [], {})), {})
    ensures Enabled(s, PollRead) && s' == Apply(s, PollRead) && s' == s.(poll := Some(Poll(1, 2, 10, [], {1})))
  {
    s' := Apply(s, PollRead);
    assert Numbered(s.slots, 1) == [] && s'.poll.value.found == [] && s'.poll.value.passed == {1};
  }

  lemma FindsSecond(s: State) returns (s': State)
    requires s == State(Two, map[2 := Two[1]], {1}, 0, [], Some(Poll(1, 2, 10, [], {1})), {})
    ensures Enabled(s, PollRead) && s' == Apply(s, PollRead) && s' == s.(poll := Some(Poll(2, 2, 10, [Two[1]], {1})))
  {
    s' := Apply(s, PollRead);
    assert Numbered(s.slots, 2) == [Two[1]] && s'.poll.value.found == [Two[1]] && s'.poll.value.passed == {1};
  }

  /** The number that belongs in the slot of `n` now. */
  function Occupant(n: nat, count: nat): (m: nat)
    requires 1 <= n <= count
    ensures n <= m <= count < m + RING_SIZE && Slot(m) == Slot(n)
    decreases count - n
  {
    if count < n + RING_SIZE then n else Occupant(n + RING_SIZE, count)
  }

  /** The promptness asked of writers is exact: a write keeps the ring current if
      and only if the counter has not come round to the slot, or the entry that
      now belongs there is itself still in flight. */
  lemma WriteKeepsRingIff(s: State, n: nat)
    requires Inv(s) && RingCurrent(s) && Enabled(s, Write(n))
    ensures RingCurrent(Apply(s, Write(n))) <==>
            Count(s) < n + RING_SIZE || Occupant(n, Count(s)) in s.inFlight
  {
    var m := Occupant(n, Count(s));
    var s' := Apply(s, Write(n));
    if Count(s) < n + RING_SIZE {
      PromptWriteKeepsRing(s, n);
    } else if m in s.inFlight {
      forall k | 1 <= k <= |s.log| && k !in s'.inFlight && !Behind(k, |s.log|)
        ensures Slot(k) in s'.slots && s'.slots[Slot(k)] == s.log[k - 1]
      {
        if Slot(k) == Slot(n) && k < m {
          SameSlot(k, m);
        } else if Slot(k) == Slot(n) && m < k {
          SameSlot(m, k);
        }
      }
    } else {
      assert s'.slots[Slot(m)].seqno == n && s.log[m - 1].seqno == m;
      assert m !in s'.inFlight;
    }
  }

  // ---- What a late writer costs ----

  /** Event `n` was recorded, is not in its slot, not under way and not with the client. */
  ghost predicate Lost(s: State, n: nat) {
    && 1 <= n <= |s.log| && n !in s.inFlight
    && (Slot(n) in s.slots ==> s.slots[Slot(n)].seqno != n)
    && !Has(s.received, n) && (s.poll.Some? ==> !Has(s.poll.value.found, n))
  }

  lemma StepKeepsLost(s: State, e: Event, n: nat)
    requires Inv(s) && Lost(s, n) && Enabled(s, e)
    ensures Lost(Apply(s, e), n)
  {
    if e.PollRead? {
      HasConcat(s.poll.value.found, Numbered(s.slots, s.poll.value.at + 1), n);
    } else if e.PollEnd? {
      HasConcat(s.received, s.poll.value.found, n);
    }
  }

  /** What is lost stays lost: the client never receives it. */
  lemma {:induction false} LostForever(states: seq<State>, events: seq<Event>, i: nat, j: nat, n: nat)
    requires Run(states, events) && i <= j <= |events| && Lost(states[i], n)
    ensures Lost(states[j], n)
  {
    if i < j {
      LostForever(states, events, i, j - 1, n);
      RunKeepsInv(states, events, j - 1);
      StepKeepsLost(states[j - 1], events[j - 1], n);
    }
  }

  /** A write that comes after the counter has come round loses the written event
      that now belongs in the slot, unless the client already has it. */
  lemma LateWriteLoses(s: State, n: nat)
    requires Inv(s) && Enabled(s, Write(n)) && n + RING_SIZE <= Count(s)
    requires var m := Occupant(n, Count(s));
      m !in s.inFlight && !Has(s.received, m) && (s.poll.Some? ==> !Has(s.poll.value.found, m))
    ensures Lost(Apply(s, Write(n)), Occupant(n, Count(s))) && !Behind(Occupant(n, Count(s)), Count(s))
  {
    assert s.log[n - 1].seqno == n;
  }

  /** The first writer stalls while `k` events are recorded after it. */
  lemma {:induction false} FirstWriterStalls(k: nat) returns (states: seq<State>, events: seq<Event>)
    ensures Run(states, events)
    ensures var s := states[|events|]; |s.log| == k + 1 && s.inFlight == {1} && s.received == [] && s.poll.None?
    ensures forall j :: 0 <= j < |events| ==> Calm(states[j], events[j])
  {
    if k == 0 {
      var first := AuditEvent(1, "", "", "");
      states, events := [Init, Apply(Init, Incr(first))], [Incr(first)];
    } else {
      states, events := FirstWriterStalls(k - 1);
      var s, event := states[|events|], AuditEvent(k + 1, "", "", "");
      var s1 := Apply(s, Incr(event));
      var s2 := Apply(s1, Write(k + 1));
      states, events := states + [s1, s2], events + [Incr(event), Write(k + 1)];
    }
  }

  /** A run in which one write comes 1000 events late, and the newest event is lost
      to a client that has not polled yet. */
  lemma StalledWriterLosesEvent() returns (states: seq<State>, events: seq<Event>)
    ensures Run(states, events) && events != [] && events[|events| - 1] == Write(1)
    ensures forall j :: 0 <= j < |events| - 1 ==> Calm(states[j], events[j])
    ensures var s := states[|events|]; |s.log| == RING_SIZE + 1 && s.inFlight == {} && Lost(s, RING_SIZE + 1)
  {
    states, events := FirstWriterStalls(RING_SIZE);
    RunKeepsInv(states, events, |events|);
    var s := states[|events|];
    assert Occupant(1, RING_SIZE + 1) == RING_SIZE + 1;
    LateWriteLoses(s, 1);
    states, events := states + [Apply(s, Write(1))], events + [Write(1)];
  }
}
