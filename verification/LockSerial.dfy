/** The calls on one queue are serialisable in every run of the lock protocol whose
    critical sections on that queue stay within their leases. */
module LockSerial {
  import opened Wrappers
  import opened RequestQueue
  import opened LockProtocol

  /** The queue after a serial execution of the calls, one after the other. */
  function Replay(calls: seq<Call>): seq<Request>
    decreases |calls|, 0
  {
    if calls == [] then []
    else
      var last := calls[|calls| - 1];
      After(last.op, Seen(calls[..|calls| - 1], last.lapsed), last.at)
  }

  /** What a call executed after `calls` finds: nothing once the queue lapsed. */
  function Seen(calls: seq<Call>, lapsed: bool): seq<Request>
    decreases |calls|, 1
  {
    if lapsed then [] else Replay(calls)
  }

  ghost predicate SerialResults(calls: seq<Call>) {
    forall i :: 0 <= i < |calls| ==>
      calls[i].result == Outcome(calls[i].op, Seen(calls[..i], calls[i].lapsed))
  }

  ghost predicate LockOrder(calls: seq<Call>) {
    forall i, j :: 0 <= i < j < |calls| ==> calls[i].ticket < calls[j].ticket
  }

  /** The stored list is the serial one, or both are gone. */
  ghost predicate Matches(stored: StoredQueue, now: int, serial: seq<Request>) {
    stored.value == serial || (stored.until <= now && serial == [])
  }

  predicate Completed(p: Phase) {
    p.Done? || p.Released? || p.Finished?
  }

  predicate Past(p: Phase) {
    Completed(p) || p.Crashed?
  }

  ghost predicate Logged(calls: seq<Call>, tid: nat, op: Op, result: bool) {
    exists i :: 0 <= i < |calls| && calls[i].tid == tid && calls[i].op == op && calls[i].result == result
  }

  /** How a thread on the key relates to the calls completed there so far. */
  ghost predicate Fits(t: Thread, tid: nat, calls: seq<Call>) {
    && (InCritical(t.phase) ==> forall i :: 0 <= i < |calls| ==> calls[i].ticket < t.phase.ticket)
    && (t.phase.Loaded? ==> t.phase.queue == Seen(calls, t.phase.lapsed) && Outcome(t.op, t.phase.queue))
    && (Completed(t.phase) ==> Logged(calls, tid, t.op, t.phase.result))
  }

  ghost predicate ThreadsFit(threads: map<nat, Thread>, calls: seq<Call>, key: string) {
    forall t :: t in threads && threads[t].key == key ==> Fits(threads[t], t, calls)
  }

  /** Every logged call was made by a thread that is past its critical section
      (or died there), and no thread is logged twice. */
  ghost predicate CallsReal(threads: map<nat, Thread>, calls: seq<Call>) {
    && (forall i :: 0 <= i < |calls| ==> calls[i].tid in threads && Past(threads[calls[i].tid].phase))
    && (forall i, j :: 0 <= i < j < |calls| ==> calls[i].tid != calls[j].tid)
  }

  ghost predicate TicketsBelow(calls: seq<Call>, next: nat) {
    forall i :: 0 <= i < |calls| ==> calls[i].ticket < next
  }

  ghost predicate Serial(s: State, key: string) {
    var calls := HistoryOf(s, key);
    && Matches(QueueOf(s, key), s.now, Replay(calls))
    && SerialResults(calls) && LockOrder(calls) && TicketsBelow(calls, s.nextTicket)
    && ThreadsFit(s.threads, calls, key)
    && CallsReal(s.threads, calls)
  }

  lemma {:induction false} AppendCall(calls: seq<Call>, c: Call)
    requires SerialResults(calls) && LockOrder(calls) && TicketsBelow(calls, c.ticket)
    requires c.result == Outcome(c.op, Seen(calls, c.lapsed))
    ensures SerialResults(calls + [c]) && LockOrder(calls + [c])
    ensures Replay(calls + [c]) == After(c.op, Seen(calls, c.lapsed), c.at)
  {
    var longer := calls + [c];
    assert longer[..|calls|] == calls;
    forall i | 0 <= i < |calls| ensures longer[..i] == calls[..i] {
    }
  }

  lemma AppendLogged(calls: seq<Call>, c: Call, tid: nat, op: Op, result: bool)
    requires Logged(calls, tid, op, result) || (c.tid == tid && c.op == op && c.result == result)
    ensures Logged(calls + [c], tid, op, result)
  {
    if Logged(calls, tid, op, result) {
      var i :| 0 <= i < |calls| && calls[i].tid == tid && calls[i].op == op && calls[i].result == result;
      assert (calls + [c])[i] == calls[i];
    } else {
      assert (calls + [c])[|calls|] == c;
    }
  }

  lemma StepLogs(shared: bool, s: State, e: Event, key: string)
    requires Enabled(shared, s, e)
    ensures HistoryOf(Apply(shared, s, e), key) == HistoryOf(s, key) + CallsAdded(s, e, key)
  {
  }

  lemma QueueUntouched(shared: bool, s: State, e: Event, key: string)
    requires Enabled(shared, s, e) && !(e.Save? && s.threads[e.tid].key == key)
    ensures QueueOf(Apply(shared, s, e), key) == QueueOf(s, key)
  {
  }

  lemma StepQueue(shared: bool, s: State, e: Event, key: string)
    requires Enabled(shared, s, e) && Matches(QueueOf(s, key), s.now, Replay(HistoryOf(s, key)))
    requires CallsAdded(s, e, key) != [] ==> Fits(s.threads[e.tid], e.tid, HistoryOf(s, key))
    ensures Matches(QueueOf(Apply(shared, s, e), key), Apply(shared, s, e).now, Replay(HistoryOf(s, key) + CallsAdded(s, e, key)))
  {
    var calls, added := HistoryOf(s, key), CallsAdded(s, e, key);
    if added == [] {
      QueueUntouched(shared, s, e, key);
      assert calls + added == calls;
    } else if e.Load? {
      QueueUntouched(shared, s, e, key);
      assert added == [added[0]];
      ReplayAppend(calls, added[0]);
    } else {
      assert added == [added[0]];
      ReplayAppend(calls, added[0]);
      assert QueueOf(Apply(shared, s, e), key).value == After(added[0].op, Seen(calls, added[0].lapsed), added[0].at);
    }
  }

  lemma ReplayAppend(calls: seq<Call>, c: Call)
    ensures Replay(calls + [c]) == After(c.op, Seen(calls, c.lapsed), c.at)
  {
    assert (calls + [c])[..|calls|] == calls;
  }

  /** The moved thread fits the calls as they are after the step. */
  lemma MoverFits(shared: bool, s: State, e: Event, key: string)
    requires Enabled(shared, s, e)
    requires Matches(QueueOf(s, key), s.now, Replay(HistoryOf(s, key))) && TicketsBelow(HistoryOf(s, key), s.nextTicket)
    requires !e.Tick? && (e.tid in s.threads ==> Fits(s.threads[e.tid], e.tid, HistoryOf(s, key)))
    requires ThreadAfter(shared, s, e).key == key
    ensures Fits(ThreadAfter(shared, s, e), e.tid, HistoryOf(s, key) + CallsAdded(s, e, key))
  {
    var calls, added := HistoryOf(s, key), CallsAdded(s, e, key);
    if added == [] {
      assert calls + added == calls;
      if e.Load? {
        LoaderFits(shared, s, e, key);
      } else {
        QuietMoverFits(shared, s, e, key);
      }
    } else {
      CallerFits(shared, s, e, key);
    }
  }

  /** A thread whose call is completed by this step. */
  lemma CallerFits(shared: bool, s: State, e: Event, key: string)
    requires Enabled(shared, s, e) && CallsAdded(s, e, key) != []
    ensures Fits(ThreadAfter(shared, s, e), e.tid, HistoryOf(s, key) + CallsAdded(s, e, key))
  {
    var c, t := CallsAdded(s, e, key)[0], ThreadAfter(shared, s, e);
    assert CallsAdded(s, e, key) == [c] && t.phase.Done? && c.tid == e.tid && c.op == t.op && c.result == t.phase.result;
    AppendLogged(HistoryOf(s, key), c, e.tid, t.op, t.phase.result);
  }

  /** A thread that has just loaded the queue. */
  lemma LoaderFits(shared: bool, s: State, e: Event, key: string)
    requires Enabled(shared, s, e) && e.Load? && s.threads[e.tid].key == key && CallsAdded(s, e, key) == []
    requires Matches(QueueOf(s, key), s.now, Replay(HistoryOf(s, key))) && Fits(s.threads[e.tid], e.tid, HistoryOf(s, key))
    ensures Fits(ThreadAfter(shared, s, e), e.tid, HistoryOf(s, key))
  {
  }

  /** Any other step of a thread. */
  lemma QuietMoverFits(shared: bool, s: State, e: Event, key: string)
    requires Enabled(shared, s, e) && !e.Tick? && !e.Load? && CallsAdded(s, e, key) == [] && ThreadAfter(shared, s, e).key == key
    requires TicketsBelow(HistoryOf(s, key), s.nextTicket) && (e.tid in s.threads ==> Fits(s.threads[e.tid], e.tid, HistoryOf(s, key)))
    ensures Fits(ThreadAfter(shared, s, e), e.tid, HistoryOf(s, key))
  {
    assert !e.Save?;
  }

  /** So does every other thread, since none of them is in its critical section
      when a call completes. */
  lemma OthersFit(shared: bool, s: State, e: Event, key: string, u: nat)
    requires Inv(shared, s) && Punctual(s, key) && Serial(s, key)
    requires u in s.threads && s.threads[u].key == key && (!e.Tick? ==> u != e.tid)
    ensures Fits(s.threads[u], u, HistoryOf(s, key) + CallsAdded(s, e, key))
  {
    var calls, added, t := HistoryOf(s, key), CallsAdded(s, e, key), s.threads[u];
    assert Fits(t, u, calls);
    if added == [] {
      assert calls + added == calls;
    } else {
      assert calls + added == calls + [added[0]];
      if InCritical(t.phase) {
        Exclusive(shared, s, u, e.tid);
      } else if Completed(t.phase) {
        AppendLogged(calls, added[0], u, t.op, t.phase.result);
      }
    }
  }

  lemma StepKeepsCallsReal(shared: bool, s: State, e: Event, key: string)
    requires Enabled(shared, s, e) && CallsReal(s.threads, HistoryOf(s, key))
    ensures CallsReal(Apply(shared, s, e).threads, HistoryOf(s, key) + CallsAdded(s, e, key))
  {
    var calls, added := HistoryOf(s, key), CallsAdded(s, e, key);
    if added == [] {
      assert calls + added == calls;
    } else {
      assert Past(PhaseAfter(shared, s, e)) && !Past(s.threads[e.tid].phase);
    }
  }

  lemma StepKeepsOrder(shared: bool, s: State, e: Event, key: string)
    requires Enabled(shared, s, e)
    requires SerialResults(HistoryOf(s, key)) && LockOrder(HistoryOf(s, key)) && TicketsBelow(HistoryOf(s, key), s.nextTicket)
    requires Matches(QueueOf(s, key), s.now, Replay(HistoryOf(s, key)))
    requires CallsAdded(s, e, key) != [] ==>
      Fits(s.threads[e.tid], e.tid, HistoryOf(s, key)) && s.threads[e.tid].phase.ticket < s.nextTicket
    ensures var calls := HistoryOf(s, key) + CallsAdded(s, e, key);
      SerialResults(calls) && LockOrder(calls) && TicketsBelow(calls, TicketAfter(shared, s, e))
  {
    var calls, added := HistoryOf(s, key), CallsAdded(s, e, key);
    if added == [] {
      assert calls + added == calls;
    } else {
      var c := added[0];
      assert added == [c] && c.ticket < TicketAfter(shared, s, e);
      AppendCall(calls, c);
    }
  }

  lemma StepKeepsFits(shared: bool, s: State, e: Event, key: string)
    requires Inv(shared, s) && Punctual(s, key) && Serial(s, key) && Enabled(shared, s, e)
    ensures ThreadsFit(Apply(shared, s, e).threads, HistoryOf(s, key) + CallsAdded(s, e, key), key)
  {
    var threads := Apply(shared, s, e).threads;
    forall t | t in threads && threads[t].key == key
      ensures Fits(threads[t], t, HistoryOf(s, key) + CallsAdded(s, e, key))
    {
      if !e.Tick? && t == e.tid {
        MoverFits(shared, s, e, key);
      } else {
        OthersFit(shared, s, e, key, t);
      }
    }
  }

  lemma StepKeepsSerial(shared: bool, s: State, e: Event, key: string)
    requires Inv(shared, s) && Punctual(s, key) && Serial(s, key) && Enabled(shared, s, e)
    ensures Serial(Apply(shared, s, e), key)
  {
    StepLogs(shared, s, e, key);
    StepQueue(shared, s, e, key);
    StepKeepsOrder(shared, s, e, key);
    StepKeepsFits(shared, s, e, key);
    StepKeepsCallsReal(shared, s, e, key);
  }

  // ---- When the calls happen, and when the queue lapses ----

  /** When the queue was last saved. */
  function LastSave(calls: seq<Call>): Option<int> {
    if calls == [] then None
    else if calls[|calls| - 1].result then Some(calls[|calls| - 1].done)
    else LastSave(calls[..|calls| - 1])
  }

  /** Nothing was saved so far, or the queue's TTL has passed since the last save. */
  predicate Lapsed(calls: seq<Call>, now: int) {
    LastSave(calls).None? || LastSave(calls).value + QUEUE_TTL <= now
  }

  function Deadline(calls: seq<Call>): int {
    if LastSave(calls).None? then 0 else LastSave(calls).value + QUEUE_TTL
  }

  /** A call found no live entry exactly when the queue had lapsed by then. */
  ghost predicate LapsesExact(calls: seq<Call>) {
    forall i :: 0 <= i < |calls| ==> (calls[i].lapsed <==> Lapsed(calls[..i], calls[i].at))
  }

  /** The calls do not overlap: each loads after the one before is through. */
  ghost predicate InSequence(calls: seq<Call>) {
    && (forall i :: 0 <= i < |calls| ==> 0 <= calls[i].at <= calls[i].done)
    && (forall i, j :: 0 <= i < j < |calls| ==> calls[i].done <= calls[j].at)
  }

  ghost predicate DoneBy(calls: seq<Call>, now: int) {
    forall i :: 0 <= i < |calls| ==> calls[i].done <= now
  }

  ghost predicate PhaseTimed(p: Phase, calls: seq<Call>, now: int) {
    p.Loaded? ==> 0 <= p.at <= now && DoneBy(calls, p.at) && (p.lapsed <==> Lapsed(calls, p.at))
  }

  ghost predicate Timed(s: State, key: string) {
    var calls := HistoryOf(s, key);
    && 0 <= s.now && QueueOf(s, key).until == Deadline(calls)
    && LapsesExact(calls) && InSequence(calls) && DoneBy(calls, s.now)
    && forall t :: t in s.threads && s.threads[t].key == key ==> PhaseTimed(s.threads[t].phase, calls, s.now)
  }

  lemma AppendTimed(calls: seq<Call>, c: Call)
    requires LapsesExact(calls) && InSequence(calls) && DoneBy(calls, c.at) && 0 <= c.at <= c.done
    requires c.lapsed <==> Lapsed(calls, c.at)
    ensures LapsesExact(calls + [c]) && InSequence(calls + [c]) && DoneBy(calls + [c], c.done)
    ensures LastSave(calls + [c]) == if c.result then Some(c.done) else LastSave(calls)
  {
    var longer := calls + [c];
    assert longer[..|calls|] == calls;
    forall i | 0 <= i < |calls| ensures longer[..i] == calls[..i] {
    }
  }

  lemma MoverTimed(shared: bool, s: State, e: Event, key: string)
    requires Enabled(shared, s, e) && CallsAdded(s, e, key) == [] && !e.Tick?
    requires 0 <= s.now && QueueOf(s, key).until == Deadline(HistoryOf(s, key)) && DoneBy(HistoryOf(s, key), s.now)
    requires e.tid in s.threads ==> PhaseTimed(s.threads[e.tid].phase, HistoryOf(s, key), s.now)
    requires ThreadAfter(shared, s, e).key == key
    ensures PhaseTimed(ThreadAfter(shared, s, e).phase, HistoryOf(s, key), s.now)
  {
  }

  lemma ThreadsTimed(shared: bool, s: State, e: Event, key: string, t: nat)
    requires Inv(shared, s) && Punctual(s, key) && Timed(s, key) && Enabled(shared, s, e)
    requires t in Apply(shared, s, e).threads && Apply(shared, s, e).threads[t].key == key
    ensures PhaseTimed(Apply(shared, s, e).threads[t].phase, HistoryOf(s, key) + CallsAdded(s, e, key), Apply(shared, s, e).now)
  {
    var calls, added := HistoryOf(s, key), CallsAdded(s, e, key);
    if added == [] {
      assert calls + added == calls;
      if !e.Tick? && t == e.tid {
        MoverTimed(shared, s, e, key);
      }
    } else if t != e.tid && s.threads[t].phase.Loaded? {
      Exclusive(shared, s, t, e.tid);
    }
  }

  lemma StepKeepsDeadline(shared: bool, s: State, e: Event, key: string)
    requires Enabled(shared, s, e) && 0 <= s.now && QueueOf(s, key).until == Deadline(HistoryOf(s, key))
    requires LapsesExact(HistoryOf(s, key)) && InSequence(HistoryOf(s, key)) && DoneBy(HistoryOf(s, key), s.now)
    requires CallsAdded(s, e, key) != [] ==> PhaseTimed(s.threads[e.tid].phase, HistoryOf(s, key), s.now)
    ensures var calls, s' := HistoryOf(s, key) + CallsAdded(s, e, key), Apply(shared, s, e);
      && QueueOf(s', key).until == Deadline(calls)
      && LapsesExact(calls) && InSequence(calls) && DoneBy(calls, s'.now)
  {
    var calls, added, stored := HistoryOf(s, key), CallsAdded(s, e, key), QueueOf(Apply(shared, s, e), key);
    if added == [] {
      QueueUntouched(shared, s, e, key);
      assert calls + added == calls;
    } else {
      var c := added[0];
      assert added == [c] && !e.Tick?;
      AppendDeadline(calls, c, QueueOf(s, key).until, stored.until);
    }
  }

  lemma AppendDeadline(calls: seq<Call>, c: Call, before: int, after: int)
    requires LapsesExact(calls) && InSequence(calls) && DoneBy(calls, c.at) && 0 <= c.at <= c.done
    requires c.lapsed <==> Lapsed(calls, c.at)
    requires before == Deadline(calls) && after == if c.result then c.done + QUEUE_TTL else before
    ensures LapsesExact(calls + [c]) && InSequence(calls + [c]) && DoneBy(calls + [c], c.done)
    ensures after == Deadline(calls + [c])
  {
    AppendTimed(calls, c);
  }

  lemma StepKeepsTimed(shared: bool, s: State, e: Event, key: string)
    requires Inv(shared, s) && Punctual(s, key) && Timed(s, key) && Enabled(shared, s, e)
    ensures Timed(Apply(shared, s, e), key)
  {
    StepLogs(shared, s, e, key);
    StepKeepsDeadline(shared, s, e, key);
    var s' := Apply(shared, s, e);
    forall t | t in s'.threads && s'.threads[t].key == key ensures PhaseTimed(s'.threads[t].phase, HistoryOf(s', key), s'.now) {
      ThreadsTimed(shared, s, e, key, t);
    }
  }

  lemma {:induction false} RunKeepsSerial(shared: bool, states: seq<State>, events: seq<Event>, i: nat, key: string)
    requires Run(shared, states, events) && i <= |events|
    requires forall j :: 0 <= j < i ==> Punctual(states[j], key)
    ensures Serial(states[i], key) && Timed(states[i], key)
  {
    if i > 0 {
      RunKeepsSerial(shared, states, events, i - 1, key);
      RunKeepsInv(shared, states, events, i - 1);
      StepKeepsSerial(shared, states[i - 1], events[i - 1], key);
      StepKeepsTimed(shared, states[i - 1], events[i - 1], key);
    }
  }

  /** The calls on the key, as logged, are a serial execution in lock order without
      overlap in time; each reports what that execution reports; each found the
      queue lapsed exactly when the TTL had passed since the last save; what a load
      finds now is the serial queue unless it lapsed; and every thread that is
      through reports what its logged call reports. */
  ghost predicate Serialised(s: State, key: string) {
    var calls := HistoryOf(s, key);
    && LockOrder(calls) && InSequence(calls) && DoneBy(calls, s.now)
    && SerialResults(calls) && LapsesExact(calls)
    && Found(s, key) == Seen(calls, Lapsed(calls, s.now))
    && (forall t :: t in s.threads && s.threads[t].key == key && Completed(s.threads[t].phase) ==>
          Logged(calls, t, s.threads[t].op, s.threads[t].phase.result))
  }

  /** No lost update, in any interleaving whose critical sections on the key stay
      within their leases. */
  lemma {:induction false} Serialisable(shared: bool, states: seq<State>, events: seq<Event>, key: string)
    requires Run(shared, states, events)
    requires forall j :: 0 <= j < |events| ==> Punctual(states[j], key)
    ensures Serialised(states[|events|], key)
  {
    RunKeepsSerial(shared, states, events, |events|, key);
    var s := states[|events|];
    forall t | t in s.threads && s.threads[t].key == key && Completed(s.threads[t].phase)
      ensures Logged(HistoryOf(s, key), t, s.threads[t].op, s.threads[t].phase.result)
    {
      assert Fits(s.threads[t], t, HistoryOf(s, key));
    }
  }

  /** With one process no timing assumption is left. */
  lemma {:induction false} LocalSerialisable(states: seq<State>, events: seq<Event>, key: string)
    requires Run(false, states, events)
    ensures Serialised(states[|events|], key)
  {
    forall j | 0 <= j < |events| ensures Punctual(states[j], key) {
      LocalIsPunctual(states, events, j, key);
    }
    Serialisable(false, states, events, key);
  }

  /** What the serial execution means for a user: a request stays queued from
      its add until a remove of that user or a lapse of the whole queue, and
      stays absent from a remove until the next add. */
  lemma {:induction false} LastCallDecides(calls: seq<Call>, i: nat, user: string)
    requires i < |calls| && calls[i].op.username == user
    requires forall j :: i < j < |calls| ==> calls[j].op.username != user && !calls[j].lapsed
    ensures Queued(Replay(calls), user) <==> calls[i].op.Add?
  {
    var last := calls[|calls| - 1];
    var seen := Seen(calls[..|calls| - 1], last.lapsed);
    if i < |calls| - 1 {
      LastCallDecides(calls[..|calls| - 1], i, user);
    }
    if last.op.Add? && Outcome(last.op, seen) {
      QueuedAppend(seen, Request(last.op.username, last.op.kind, last.at), user);
    }
  }

  lemma {:induction false} LastSaveAfter(calls: seq<Call>, i: nat)
    requires InSequence(calls) && i < |calls| && calls[i].result
    ensures LastSave(calls).Some? && calls[i].done <= LastSave(calls).value
  {
    if i < |calls| - 1 && !calls[|calls| - 1].result {
      LastSaveAfter(calls[..|calls| - 1], i);
    }
  }

  /** The queue has lapsed if and only if no save was made within the last 30 days. */
  lemma {:induction false} LapsedIff(calls: seq<Call>, now: int)
    requires InSequence(calls)
    ensures Lapsed(calls, now) <==> forall i :: 0 <= i < |calls| && calls[i].result ==> calls[i].done + 30 * 24 * 3600 * 1000 <= now
  {
    if calls != [] && !calls[|calls| - 1].result {
      LapsedIff(calls[..|calls| - 1], now);
    }
  }

  /** The call reports, and found of the queue, what the serial execution says. */
  ghost predicate Exact(calls: seq<Call>, k: nat)
    requires k < |calls|
  {
    var c := calls[k];
    c.result == Outcome(c.op, Seen(calls[..k], c.lapsed)) && (c.lapsed <==> Lapsed(calls[..k], c.at))
  }

  ghost predicate AllExact(calls: seq<Call>) {
    forall k: nat {:trigger Exact(calls, k)} :: k < |calls| ==> Exact(calls, k)
  }

  /** The request is the one call `m` added: it carries that call's user, kind and time,
      and none of the calls up to the `n`-th removed that user or found a lapse since. */
  ghost predicate AddedBy(calls: seq<Call>, n: nat, m: int, r: Request)
    requires n <= |calls|
  {
    && 0 <= m < n && calls[m].result
    && calls[m].op == Add(r.username, r.kind) && calls[m].at == r.requestedAt
    && forall j :: m < j < n ==> calls[j].op != Remove(r.username) && !calls[j].lapsed
  }

  ghost predicate AddedWithin(calls: seq<Call>, n: nat, lo: int, hi: int, r: Request)
    requires n <= |calls|
  {
    exists m :: lo <= m < hi && AddedBy(calls, n, m, r)
  }

  /** Among the first `n` calls: the queue holds one request of the user of call `i`,
      the one that call added, behind what earlier calls added and before the rest. */
  ghost predicate HeldBetween(q: seq<Request>, calls: seq<Call>, n: nat, i: nat, before: seq<Request>, behind: seq<Request>)
    requires i < n <= |calls| && calls[i].op.Add?
  {
    var user, kind := calls[i].op.username, calls[i].op.kind;
    && q == before + [Request(user, kind, calls[i].at)] + behind
    && (forall r :: r in before ==> r.username != user && AddedWithin(calls, n, 0, i, r))
    && (forall r :: r in behind ==> r.username != user && AddedWithin(calls, n, i + 1, n, r))
  }

  lemma ReplayPrefix(calls: seq<Call>, n: nat)
    requires n < |calls|
    ensures Replay(calls[..n + 1]) == After(calls[n].op, Seen(calls[..n], calls[n].lapsed), calls[n].at)
  {
    assert calls[..n + 1] == calls[..n] + [calls[n]];
    ReplayAppend(calls[..n], calls[n]);
  }

  /** A request that a further call leaves in the queue is still the one its add put there. */
  lemma StillAddedBy(calls: seq<Call>, n: nat, m: int, r: Request, q: seq<Request>)
    requires n < |calls| && AddedBy(calls, n, m, r) && !calls[n].lapsed && r in After(calls[n].op, q, calls[n].at)
    ensures AddedBy(calls, n + 1, m, r)
  {
    var q' := After(calls[n].op, q, calls[n].at);
    var k :| 0 <= k < |q'| && q'[k] == r;
    assert Queued(q', r.username);
  }

  lemma CallBrings(op: Op, q: seq<Request>, at: int, r: Request)
    requires r in After(op, q, at)
    ensures r in q || (Outcome(op, q) && op == Add(r.username, r.kind) && at == r.requestedAt)
  {
    if op.Remove? {
      WithoutKeeps(q, op.username, r);
    }
  }

  /** Every queued request is the one some successful add put there. */
  lemma {:induction false} QueuedWasAdded(calls: seq<Call>, n: nat, r: Request) returns (m: nat)
    requires n <= |calls| && AllExact(calls) && r in Replay(calls[..n])
    ensures AddedBy(calls, n, m, r)
  {
    var last, seen := calls[n - 1], Seen(calls[..n - 1], calls[n - 1].lapsed);
    ReplayPrefix(calls, n - 1);
    assert Exact(calls, n - 1);
    CallBrings(last.op, seen, last.at, r);
    if r in seen {
      m := QueuedWasAdded(calls, n - 1, r);
      StillAddedBy(calls, n - 1, m, r, seen);
    } else {
      m := n - 1;
    }
  }

  /** At the end of the successful add itself. */
  lemma AddHolds(calls: seq<Call>, i: nat) returns (before: seq<Request>)
    requires AllExact(calls) && i < |calls| && calls[i].op.Add? && calls[i].result
    ensures HeldBetween(Replay(calls[..i + 1]), calls, i + 1, i, before, [])
  {
    var c := calls[i];
    before := Seen(calls[..i], c.lapsed);
    ReplayPrefix(calls, i);
    assert Exact(calls, i);
    forall r | r in before ensures r.username != c.op.username && AddedWithin(calls, i + 1, 0, i, r) {
      var k :| 0 <= k < |before| && before[k] == r;
      var m := QueuedWasAdded(calls, i, r);
      StillAddedBy(calls, i, m, r, before);
    }
  }

  /** What one call does to the requests on both sides of one it does not remove. */
  lemma AroundHeld(c: Call, before: seq<Request>, held: Request, behind: seq<Request>)
    returns (before': seq<Request>, behind': seq<Request>)
    requires c.op != Remove(held.username)
    ensures After(c.op, before + [held] + behind, c.at) == before' + [held] + behind'
    ensures forall r :: r in before' ==> r in before
    ensures forall r :: r in behind' ==>
      r in behind || (c.op == Add(r.username, r.kind) && c.at == r.requestedAt && Outcome(c.op, before + [held] + behind))
  {
    before', behind' := before, behind;
    if Outcome(c.op, before + [held] + behind) {
      if c.op.Add? {
        behind' := behind + [Request(c.op.username, c.op.kind, c.at)];
      } else {
        before', behind' := AroundRemoved(c.op.username, before, held, behind);
      }
    }
  }

  lemma AroundRemoved(user: string, before: seq<Request>, held: Request, behind: seq<Request>)
    returns (before': seq<Request>, behind': seq<Request>)
    requires user != held.username
    ensures Without(before + [held] + behind, user) == before' + [held] + behind'
    ensures forall r :: (r in before' ==> r in before) && (r in behind' ==> r in behind)
  {
    before', behind' := Without(before, user), Without(behind, user);
    WithoutConcat(before + [held], behind, user);
    WithoutConcat(before, [held], user);
    assert [held] == [] + [held] && Without([held], user) == [held];
    forall r ensures (r in before' ==> r in before) && (r in behind' ==> r in behind) {
      WithoutKeeps(before, user, r);
      WithoutKeeps(behind, user, r);
    }
  }

  /** The `n`-th call, which neither finds the queue lapsed nor removes the user, keeps
      the request, and the order around it. */
  lemma CallKeepsHeld(calls: seq<Call>, n: nat, i: nat, before: seq<Request>, behind: seq<Request>)
    returns (before': seq<Request>, behind': seq<Request>)
    requires i < n < |calls| && calls[i].op.Add? && HeldBetween(Replay(calls[..n]), calls, n, i, before, behind)
    requires var c := calls[n]; !c.lapsed && c.op != Remove(calls[i].op.username) && c.result == Outcome(c.op, Replay(calls[..n]))
    ensures HeldBetween(Replay(calls[..n + 1]), calls, n + 1, i, before', behind')
  {
    ReplayPrefix(calls, n);
    var q, held := Replay(calls[..n]), Request(calls[i].op.username, calls[i].op.kind, calls[i].at);
    assert q[|before|] == held && Queued(q, held.username);
    before', behind' := AroundHeld(calls[n], before, held, behind);
    forall r | r in before' ensures r.username != held.username && AddedWithin(calls, n + 1, 0, i, r) {
      var m :| 0 <= m < i && AddedBy(calls, n, m, r);
      StillAddedBy(calls, n, m, r, q);
    }
    forall r | r in behind' ensures r.username != held.username && AddedWithin(calls, n + 1, i + 1, n + 1, r) {
      if r in behind {
        var m :| i + 1 <= m < n && AddedBy(calls, n, m, r);
        StillAddedBy(calls, n, m, r, q);
      } else {
        assert AddedBy(calls, n + 1, n, r);
      }
    }
  }

  /** Within 30 days of a save the next call finds the queue. */
  lemma NextFinds(calls: seq<Call>, n: nat, i: nat)
    requires InSequence(calls) && AllExact(calls)
    requires i < n < |calls| && calls[i].result && calls[n].at < calls[i].done + QUEUE_TTL
    ensures !calls[n].lapsed && calls[n].result == Outcome(calls[n].op, Replay(calls[..n]))
  {
    LastSaveAfter(calls[..n], i);
    assert Exact(calls, n);
  }

  lemma {:induction false} StaysInReplay(calls: seq<Call>, n: nat, i: nat, now: int)
    returns (before: seq<Request>, behind: seq<Request>)
    requires InSequence(calls) && AllExact(calls) && DoneBy(calls, now)
    requires i < n <= |calls| && calls[i].op.Add? && calls[i].result && now < calls[i].done + QUEUE_TTL
    requires forall j :: i < j < n ==> calls[j].op != Remove(calls[i].op.username)
    ensures HeldBetween(Replay(calls[..n]), calls, n, i, before, behind)
  {
    if i < n - 1 {
      before, behind := StaysInReplay(calls, n - 1, i, now);
      NextFinds(calls, n - 1, i);
      before, behind := CallKeepsHeld(calls, n - 1, i, before, behind);
    } else {
      behind := [];
      before := AddHolds(calls, i);
    }
  }

  /** What this means for a user: for the next 30 days an add that reported success is
      found in the queue exactly as it was made, in its place among the requests of
      other users, unless a remove of that user comes after it. */
  lemma {:induction false} AddedStaysQueued(s: State, key: string, i: nat)
    returns (before: seq<Request>, behind: seq<Request>)
    requires Serialised(s, key)
    requires var calls := HistoryOf(s, key);
      && i < |calls| && calls[i].op.Add? && calls[i].result
      && (forall j :: i < j < |calls| ==> calls[j].op != Remove(calls[i].op.username))
      && s.now < calls[i].done + 30 * 24 * 3600 * 1000
    ensures var call := HistoryOf(s, key)[i];
      Found(s, key) == before + [Request(call.op.username, call.op.kind, call.at)] + behind
    ensures HeldBetween(Found(s, key), HistoryOf(s, key), |HistoryOf(s, key)|, i, before, behind)
  {
    var calls := HistoryOf(s, key);
    assert AllExact(calls);
    before, behind := StaysInReplay(calls, |calls|, i, s.now);
    assert calls[..|calls|] == calls;
    LastSaveAfter(calls, i);
  }

  /** And nothing else is found there: every request found is one some call added,
      which no later call removed. */
  lemma {:induction false} FoundWasAdded(s: State, key: string, r: Request) returns (m: nat)
    requires Serialised(s, key) && r in Found(s, key)
    ensures AddedBy(HistoryOf(s, key), |HistoryOf(s, key)|, m, r)
  {
    var calls := HistoryOf(s, key);
    assert calls[..|calls|] == calls;
    assert AllExact(calls);
    m := QueuedWasAdded(calls, |calls|, r);
  }

  // ---- Saves after the lease ----

  /** A thread that is about to save has something to do on the queue it loaded. */
  ghost predicate LoadsCount(s: State) {
    forall t :: t in s.threads && s.threads[t].phase.Loaded? ==> Outcome(s.threads[t].op, s.threads[t].phase.queue)
  }

  lemma {:induction false} RunKeepsLoadsCount(shared: bool, states: seq<State>, events: seq<Event>, i: nat)
    requires Run(shared, states, events) && i <= |events|
    ensures LoadsCount(states[i])
  {
    if i > 0 {
      RunKeepsLoadsCount(shared, states, events, i - 1);
      StepKeepsLoadsCount(shared, states[i - 1], events[i - 1]);
    }
  }

  lemma StepKeepsLoadsCount(shared: bool, s: State, e: Event)
    requires LoadsCount(s) && Enabled(shared, s, e)
    ensures LoadsCount(Apply(shared, s, e))
  {
  }

  /** The save does to the queue, and reports, what the whole call would if it were
      made at this moment. */
  predicate AsIfNow(shared: bool, s: State, tid: nat)
    requires Enabled(shared, s, Save(tid))
  {
    var t := s.threads[tid];
    && Outcome(t.op, Found(s, t.key))
    && Found(Apply(shared, s, Save(tid)), t.key) == After(t.op, Found(s, t.key), t.phase.at)
  }

  /** As far as the operation goes, the queue that was loaded is the one found now. */
  predicate SameForOp(op: Op, loaded: seq<Request>, found: seq<Request>) {
    match op
    case Add(_, _) => loaded == found
    case Remove(user) => Queued(found, user) && Without(loaded, user) == Without(found, user)
  }

  lemma SaveIsFound(shared: bool, s: State, tid: nat)
    requires Enabled(shared, s, Save(tid))
    ensures var t := s.threads[tid]; Found(Apply(shared, s, Save(tid)), t.key) == After(t.op, t.phase.queue, t.phase.at)
  {
  }

  lemma AppendCancels<T>(a: seq<T>, b: seq<T>, x: T)
    requires a + [x] == b + [x]
    ensures a == b
  {
    assert a == (a + [x])[..|a|] && b == (b + [x])[..|b|];
  }

  /** In every run, however late, a save is harmless if and only if the queue it loaded
      is still the one a load would find, for a removal up to requests of that user. */
  lemma LateSaveHarmlessIff(shared: bool, states: seq<State>, events: seq<Event>, tid: nat)
    requires Run(shared, states, events) && Enabled(shared, states[|events|], Save(tid))
    ensures var s := states[|events|]; var t := s.threads[tid];
      AsIfNow(shared, s, tid) <==> SameForOp(t.op, t.phase.queue, Found(s, t.key))
  {
    RunKeepsLoadsCount(shared, states, events, |events|);
    var s := states[|events|];
    var t, found := s.threads[tid], Found(s, s.threads[tid].key);
    SaveIsFound(shared, s, tid);
    if t.op.Add? && AsIfNow(shared, s, tid) {
      AppendCancels(t.phase.queue, found, Request(t.op.username, t.op.kind, t.phase.at));
    }
  }

  ghost predicate Reachable(shared: bool, s: State) {
    exists states, events :: Run(shared, states, events) && states[|events|] == s
  }

  lemma ReachableInit(shared: bool)
    ensures Reachable(shared, Init)
  {
    assert Run(shared, [Init], []);
  }

  lemma ReachableStep(shared: bool, s: State, e: Event) returns (s': State)
    requires Reachable(shared, s) && Enabled(shared, s, e)
    ensures s' == Apply(shared, s, e) && Reachable(shared, s')
  {
    var states, events :| Run(shared, states, events) && states[|events|] == s;
    s' := Apply(shared, s, e);
    assert Run(shared, states + [s'], events + [e]);
  }

  /** Into the critical section: the mutex and, between replicas, the lock key for 5 s. */
  lemma EnterAlone(shared: bool, s: State, tid: nat) returns (s': State)
    requires Reachable(shared, s) && tid in s.threads && s.threads[tid].phase.Waiting?
    requires (s.threads[tid].replica, s.threads[tid].key) !in s.mutexes && LockFree(s, s.threads[tid].key)
    ensures Reachable(shared, s')
    ensures var t := s.threads[tid];
      && s'.threads == s.threads[tid := t.(phase := Critical(s.nextTicket, if shared then Leased(s.now + 5000) else Local))]
      && s'.mutexes == s.mutexes[(t.replica, t.key) := tid]
      && s'.locks == (if shared then s.locks[t.key := LockEntry(s.nextTicket, s.now + 5000)] else s.locks)
      && s'.now == s.now && s'.queues == s.queues
  {
    s' := ReachableStep(shared, s, LockMutex(tid));
    if shared {
      s' := ReachableStep(shared, s', SetNX(tid));
    }
  }

  /** A load and, when there is something to do, a save straight after it. */
  lemma ChangeAtOnce(shared: bool, s: State, tid: nat) returns (s': State)
    requires Reachable(shared, s) && tid in s.threads && s.threads[tid].phase.Critical?
    ensures Reachable(shared, s')
    ensures var t, q := s.threads[tid], Found(s, s.threads[tid].key);
      && s'.threads == s.threads[tid := t.(phase := LockProtocol.Done(t.phase.ticket, t.phase.hold, Outcome(t.op, q)))]
      && Found(s', t.key) == After(t.op, q, s.now)
      && s'.now == s.now && s'.mutexes == s.mutexes && s'.locks == s.locks
  {
    var t, q := s.threads[tid], Found(s, s.threads[tid].key);
    s' := ReachableStep(shared, s, Load(tid));
    if Outcome(t.op, q) {
      SaveIsFound(shared, s', tid);
      s' := ReachableStep(shared, s', Save(tid));
    }
  }

  /** Out again, when the lock key still holds the thread's own ticket. */
  lemma LeaveAlone(shared: bool, s: State, tid: nat) returns (s': State)
    requires Reachable(shared, s) && tid in s.threads && s.threads[tid].phase.Done?
    requires s.threads[tid].phase.hold.Leased? ==>
      var key := s.threads[tid].key; key in s.locks && s.locks[key].token == s.threads[tid].phase.ticket && s.now < s.locks[key].until
    ensures Reachable(shared, s')
    ensures var t := s.threads[tid];
      && s'.threads == s.threads[tid := t.(phase := Finished(t.phase.result))]
      && s'.mutexes == s.mutexes - {(t.replica, t.key)}
      && s'.locks == (if t.phase.hold.Leased? then s.locks - {t.key} else s.locks)
      && s'.now == s.now && s'.queues == s.queues
  {
    s' := s;
    if s.threads[tid].phase.hold.Leased? {
      s' := ReachableStep(shared, s', Release(tid, true));
    }
    s' := ReachableStep(shared, s', Unlock(tid));
  }

  /** A thread that meets no other runs through its whole call: it reports and does to
      the queue what CallMeans says, with the current time, and leaves the lock and the
      mutex free again. */
  lemma CallAlone(shared: bool, s: State, tid: nat) returns (s': State)
    requires Reachable(shared, s) && tid in s.threads && s.threads[tid].phase.Waiting?
    requires (s.threads[tid].replica, s.threads[tid].key) !in s.mutexes && LockFree(s, s.threads[tid].key)
    ensures Reachable(shared, s') && s'.now == s.now
    ensures var t, q := s.threads[tid], Found(s, s.threads[tid].key);
      && s'.threads == s.threads[tid := t.(phase := Finished(Outcome(t.op, q)))]
      && Found(s', t.key) == After(t.op, q, s.now)
      && s'.mutexes == s.mutexes
      && s'.locks == (if shared then s.locks - {t.key} else s.locks)
  {
    var s1 := EnterAlone(shared, s, tid);
    var s2 := ChangeAtOnce(shared, s1, tid);
    s' := LeaveAlone(shared, s2, tid);
  }

  /** Waiting for the lock ends: a thread that gives up is in its critical section
      beside the holder, on a hold that is not in time. */
  lemma GivesUpBesideHolder() returns (s: State)
    ensures Reachable(true, s) && 0 in s.threads && 1 in s.threads && s.threads[0].key == s.threads[1].key
    ensures InCritical(s.threads[0].phase) && InTime(s.threads[0].phase, s.now)
    ensures InCritical(s.threads[1].phase) && !InTime(s.threads[1].phase, s.now)
  {
    s := BothPoll();
    s := ReachableStep(true, s, SetNX(0));
    s := ReachableStep(true, s, GiveUp(1, false));
  }

  /** The timing condition cannot be dropped: a holder that saves after its lease
      ran out overwrites its successor, and an add that reported success is gone. */
  lemma OverrunLosesUpdate() returns (s: State)
    ensures Reachable(true, s) && s.now < QueueOf(s, "q").until
    ensures HistoryOf(s, "q") == [Call(1, 1, Add("bob", ""), true, 5000, 5000, true), Call(0, 0, Add("ann", ""), true, 0, 5000, true)]
    ensures !Queued(QueueOf(s, "q").value, "bob")
  {
    s := FirstOverruns();
    s := ReachableStep(true, s, SetNX(1));
    s := ReachableStep(true, s, Load(1));
    assert s.threads[1].phase == Loaded(1, Leased(10000), [], true, 5000);
    s := ReachableStep(true, s, Save(1));
    assert s.threads[0].phase == Loaded(0, Leased(5000), [], true, 0);
    assert HistoryOf(s, "q") == [Call(1, 1, Add("bob", ""), true, 5000, 5000, true)];
    s := ReachableStep(true, s, Save(0));
    assert QueueOf(s, "q").value == [Request("ann", "", 0)];
  }

  lemma FirstOverruns() returns (s: State)
    ensures Reachable(true, s)
    ensures s.now == 5000 && s.locks == map["q" := LockEntry(0, 5000)] && s.queues == map[] && HistoryOf(s, "q") == [] && s.nextTicket == 1
    ensures s.threads == map[0 := Thread(0, "q", Add("ann", ""), Loaded(0, Leased(5000), [], true, 0)), 1 := Thread(1, "q", Add("bob", ""), Polling)]
  {
    s := BothPoll();
    s := ReachableStep(true, s, SetNX(0));
    s := ReachableStep(true, s, Load(0));
    s := ReachableStep(true, s, Tick(LOCK_TTL));
  }

  lemma BothPoll() returns (s: State)
    ensures Reachable(true, s)
    ensures s.now == 0 && s.locks == map[] && s.queues == map[] && s.history == map[] && s.nextTicket == 0
    ensures s.threads == map[0 := Thread(0, "q", Add("ann", ""), Polling), 1 := Thread(1, "q", Add("bob", ""), Polling)]
  {
    ReachableInit(true);
    s := ReachableStep(true, Init, Spawn(0, 0, "q", Add("ann", "")));
    s := ReachableStep(true, s, Spawn(1, 1, "q", Add("bob", "")));
    var ann, bob := Thread(0, "q", Add("ann", ""), Waiting), Thread(1, "q", Add("bob", ""), Waiting);
    assert s == Init.(threads := map[0 := ann, 1 := bob]);
    s := ReachableStep(true, s, LockMutex(0));
    assert s == Init.(threads := map[0 := ann.(phase := Polling), 1 := bob], mutexes := map[(0, "q") := 0]);
    s := ReachableStep(true, s, LockMutex(1));
  }
}
