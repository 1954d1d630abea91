/** The audit counter with many recorders. With Redis an increment is one atomic
    command; in one process it is a read and a write under the mutex of the key.
    Every call is one step; a write may fail, and a failed read counts as no
    counter at all. */
module AuditCounter {
  import opened Wrappers

  datatype Phase =
    | Waiting
    | Locked
    | Read(seen: nat)
    | Wrote(result: Option<nat>)
    | Finished(result: Option<nat>)

  /** `given` lists the threads in the order of the numbers they were given. */
  datatype State = State(counter: nat, mutex: Option<nat>, threads: map<nat, Phase>, given: seq<nat>)

  const Init := State(0, None, map[], [])

  datatype Event =
    | Spawn(tid: nat)
    | AtomicIncr(tid: nat)
    | Lock(tid: nat)
    | Load(tid: nat, works: bool)
    | Store(tid: nat, works: bool)
    | Unlock(tid: nat)

  predicate Enabled(shared: bool, s: State, e: Event) {
    match e
    case Spawn(tid) => tid !in s.threads
    case AtomicIncr(tid) => shared && tid in s.threads && s.threads[tid].Waiting?
    case Lock(tid) => !shared && tid in s.threads && s.threads[tid].Waiting? && s.mutex.None?
    case Load(tid, _) => tid in s.threads && s.threads[tid].Locked?
    case Store(tid, _) => tid in s.threads && s.threads[tid].Read?
    case Unlock(tid) => tid in s.threads && s.threads[tid].Wrote?
  }

  function Apply(shared: bool, s: State, e: Event): State
    requires Enabled(shared, s, e)
  {
    match e
    case Spawn(tid) => s.(threads := s.threads[tid := Waiting])
    case AtomicIncr(tid) =>
      s.(counter := s.counter + 1, threads := s.threads[tid := Finished(Some(s.counter + 1))], given := s.given + [tid])
    case Lock(tid) => s.(mutex := Some(tid), threads := s.threads[tid := Locked])
    case Load(tid, works) => s.(threads := s.threads[tid := Read(if works then s.counter else 0)])
    case Store(tid, works) =>
      var n := s.threads[tid].seen + 1;
      if works then s.(counter := n, threads := s.threads[tid := Wrote(Some(n))], given := s.given + [tid])
      else s.(threads := s.threads[tid := Wrote(None)])
    case Unlock(tid) => s.(mutex := None, threads := s.threads[tid := Finished(s.threads[tid].result)])
  }

  predicate Run(shared: bool, states: seq<State>, events: seq<Event>) {
    && |states| == |events| + 1
    && states[0] == Init
    && forall i :: 0 <= i < |events| ==> Enabled(shared, states[i], events[i]) && states[i + 1] == Apply(shared, states[i], events[i])
  }

  /** A failed write hands out nothing and leaves the counter alone; a failed read looks
      like a counter of zero. Both may happen at any time. */
  lemma CallsFailAnyTime(shared: bool, s: State, tid: nat)
    requires tid in s.threads
    ensures s.threads[tid].Locked? ==>
      Enabled(shared, s, Load(tid, false)) && Apply(shared, s, Load(tid, false)) == s.(threads := s.threads[tid := Read(0)])
    ensures s.threads[tid].Read? ==>
      Enabled(shared, s, Store(tid, false)) && Apply(shared, s, Store(tid, false)) == s.(threads := s.threads[tid := Wrote(None)])
  {
  }

  predicate HasNumber(p: Phase, n: nat) {
    (p.Wrote? || p.Finished?) && p.result == Some(n)
  }

  predicate Inside(p: Phase) {
    p.Locked? || p.Read? || p.Wrote?
  }

  ghost predicate Inv(shared: bool, s: State) {
    && |s.given| == s.counter
    && (shared ==> forall t :: t in s.threads ==> !Inside(s.threads[t]))
    && (forall t :: t in s.threads && Inside(s.threads[t]) ==> s.mutex == Some(t))
    && (forall t :: t in s.threads && s.threads[t].Read? ==> s.threads[t].seen == s.counter)
    && (forall i :: 0 <= i < |s.given| ==> s.given[i] in s.threads && HasNumber(s.threads[s.given[i]], i + 1))
    && (forall t, n: nat :: t in s.threads && HasNumber(s.threads[t], n) ==> 1 <= n <= |s.given| && s.given[n - 1] == t)
  }

  /** Reads of the stored counter work. */
  predicate Readable(e: Event) {
    e.Load? ==> e.works
  }

  lemma StepKeepsInv(shared: bool, s: State, e: Event)
    requires Inv(shared, s) && Enabled(shared, s, e) && Readable(e)
    ensures Inv(shared, Apply(shared, s, e))
  {
    var s' := Apply(shared, s, e);
    forall t, n: nat | t in s'.threads && HasNumber(s'.threads[t], n) ensures 1 <= n <= |s'.given| && s'.given[n - 1] == t {
      assert t in s.threads && (HasNumber(s.threads[t], n) || t == s'.given[|s'.given| - 1]);
    }
  }

  lemma {:induction false} RunKeepsInv(shared: bool, states: seq<State>, events: seq<Event>, n: nat)
    requires Run(shared, states, events) && n <= |events|
    requires forall i :: 0 <= i < n ==> Readable(events[i])
    ensures Inv(shared, states[n])
  {
    if n > 0 {
      RunKeepsInv(shared, states, events, n - 1);
      StepKeepsInv(shared, states[n - 1], events[n - 1]);
    }
  }

  /** Whatever writes fail, the numbers handed out are 1, 2, 3, ... up to the
      counter, each to exactly one thread. */
  lemma {:induction false} EachNumberOnce(shared: bool, states: seq<State>, events: seq<Event>, n: nat)
    requires Run(shared, states, events) && forall i :: 0 <= i < |events| ==> Readable(events[i])
    ensures var s := states[|events|];
      && (1 <= n <= s.counter <==> exists t :: t in s.threads && HasNumber(s.threads[t], n))
      && (forall t, u :: t in s.threads && u in s.threads && HasNumber(s.threads[t], n) && HasNumber(s.threads[u], n) ==> t == u)
  {
    RunKeepsInv(shared, states, events, |events|);
    var s := states[|events|];
    if 1 <= n <= s.counter {
      assert HasNumber(s.threads[s.given[n - 1]], n);
    }
  }

  /** In lock order the numbers only grow: a thread that is given its number after
      another holds a larger one. */
  lemma {:induction false} LaterIsLarger(shared: bool, states: seq<State>, events: seq<Event>, i: nat, j: nat, t: nat, u: nat, m: nat, n: nat)
    requires Run(shared, states, events) && i <= j <= |events| && forall k :: 0 <= k < |events| ==> Readable(events[k])
    requires t in states[i].threads && HasNumber(states[i].threads[t], m)
    requires u in states[j].threads && HasNumber(states[j].threads[u], n)
    requires u in states[i].threads ==> !HasNumber(states[i].threads[u], n)
    ensures m < n
  {
    RunKeepsInv(shared, states, events, i);
    RunKeepsInv(shared, states, events, j);
    GivenGrows(shared, states, events, i, j);
  }

  lemma {:induction false} GivenGrows(shared: bool, states: seq<State>, events: seq<Event>, i: nat, j: nat)
    requires Run(shared, states, events) && i <= j <= |events|
    ensures states[i].given <= states[j].given
  {
    if i < j {
      GivenGrows(shared, states, events, i, j - 1);
    }
  }

  /** A failed read restarts the numbering: in any state in which a first number
      was handed out, the next recorder whose read fails gets number 1 again. */
  lemma FailedReadRestarts(s: State, tid: nat)
    requires Inv(false, s) && s.counter >= 1 && tid in s.threads && s.threads[tid].Locked?
    ensures Enabled(false, s, Load(tid, false)) && Enabled(false, Apply(false, s, Load(tid, false)), Store(tid, true))
    ensures var s' := Apply(false, Apply(false, s, Load(tid, false)), Store(tid, true));
      s'.counter == 1 && exists t, u :: t in s'.threads && u in s'.threads && t != u && HasNumber(s'.threads[t], 1) && HasNumber(s'.threads[u], 1)
  {
    var first := s.given[0];
    assert HasNumber(s.threads[first], 1) && first != tid;
    var s' := Apply(false, Apply(false, s, Load(tid, false)), Store(tid, true));
    assert HasNumber(s'.threads[first], 1) && HasNumber(s'.threads[tid], 1);
  }

  /** A run of two recorders in which the second one's read fails: both get number 1. */
  lemma NumberOneTwice() returns (states: seq<State>, events: seq<Event>)
    ensures Run(false, states, events)
    ensures var s := states[|events|]; s.counter == 1 && s.threads == map[0 := Finished(Some(1)), 1 := Wrote(Some(1))]
  {
    var first, done := FirstNumber();
    var s6 := State(1, None, map[0 := Finished(Some(1)), 1 := Waiting], [0]);
    var s7 := State(1, Some(1), map[0 := Finished(Some(1)), 1 := Locked], [0]);
    var s8 := State(1, Some(1), map[0 := Finished(Some(1)), 1 := Read(0)], [0]);
    var s9 := State(1, Some(1), map[0 := Finished(Some(1)), 1 := Wrote(Some(1))], [0, 1]);
    states, events := first + [s6, s7, s8, s9], done + [Spawn(1), Lock(1), Load(1, false), Store(1, true)];
  }

  lemma FirstNumber() returns (states: seq<State>, events: seq<Event>)
    ensures Run(false, states, events) && states[|events|] == State(1, None, map[0 := Finished(Some(1))], [0])
  {
    var s1 := State(0, None, map[0 := Waiting], []);
    var s2 := State(0, Some(0), map[0 := Locked], []);
    var s3 := State(0, Some(0), map[0 := Read(0)], []);
    var s4 := State(1, Some(0), map[0 := Wrote(Some(1))], [0]);
    var s5 := State(1, None, map[0 := Finished(Some(1))], [0]);
    states, events := [Init, s1, s2, s3, s4, s5], [Spawn(0), Lock(0), Load(0, true), Store(0, true), Unlock(0)];
  }
}
