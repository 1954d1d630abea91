/** The storage lock as a step relation over any number of replicas and threads.

    A thread takes its replica's mutex for the key, polls SET NX on the shared
    lock key (only when the storage is shared between replicas), loads the
    queue, saves the changed queue, releases the lock key by compare-and-delete
    and unlocks the mutex. Every storage call and every clock tick is one step,
    threads may die between any two of them, and a thread that cannot get the
    lock goes on without it. Times are in milliseconds. */
module LockProtocol {
  import opened RequestQueue

  const LOCK_TTL := 5000
  const QUEUE_TTL := 30 * 24 * 3600 * 1000

  /** How a thread inside `hold` is protected. */
  datatype Hold = Local | Leased(until: int) | Unlocked

  datatype Phase =
    | Waiting
    | Polling
    | Critical(ticket: nat, hold: Hold)
    | Loaded(ticket: nat, hold: Hold, queue: seq<Request>, lapsed: bool, at: int)
    | Done(ticket: nat, hold: Hold, result: bool)
    | Released(result: bool)
    | Finished(result: bool)
    | Crashed

  datatype Thread = Thread(replica: nat, key: string, op: Op, phase: Phase)

  datatype LockEntry = LockEntry(token: nat, until: int)
  datatype StoredQueue = StoredQueue(value: seq<Request>, until: int)

  /** One completed call: it loaded the queue at `at`, which is also the time stamp
      a new request gets, and was through at `done`, when it saved or found nothing
      to do. `lapsed` says that the load found no live entry. */
  datatype Call = Call(ticket: nat, tid: nat, op: Op, lapsed: bool, at: int, done: int, result: bool)

  datatype State = State(
    now: int,
    threads: map<nat, Thread>,
    mutexes: map<(nat, string), nat>,
    locks: map<string, LockEntry>,
    queues: map<string, StoredQueue>,
    nextTicket: nat,
    history: map<string, seq<Call>>)

  const Init := State(0, map[], map[], map[], map[], 0, map[])

  datatype Event =
    | Tick(ms: nat)
    | Spawn(tid: nat, replica: nat, key: string, op: Op)
    | LockMutex(tid: nat)
    | SetNX(tid: nat)
    | GiveUp(tid: nat, taken: bool)
    | Load(tid: nat)
    | Save(tid: nat)
    | Release(tid: nat, delivered: bool)
    | Unlock(tid: nat)
    | Crash(tid: nat)

  predicate InCritical(p: Phase) {
    p.Critical? || p.Loaded?
  }

  predicate Holding(p: Phase) {
    p.Critical? || p.Loaded? || p.Done?
  }

  /** Holding on a lease that has not run out. */
  predicate Running(p: Phase, now: int) {
    Holding(p) && p.hold.Leased? && now < p.hold.until
  }

  predicate HasMutex(p: Phase) {
    p.Polling? || Holding(p) || p.Released?
  }

  predicate LockFree(s: State, key: string) {
    key in s.locks ==> s.locks[key].until <= s.now
  }

  function QueueOf(s: State, key: string): StoredQueue {
    if key in s.queues then s.queues[key] else StoredQueue([], 0)
  }

  function HistoryOf(s: State, key: string): seq<Call> {
    if key in s.history then s.history[key] else []
  }

  /** What a load finds at this moment. */
  function Found(s: State, key: string): seq<Request> {
    if QueueOf(s, key).until <= s.now then [] else QueueOf(s, key).value
  }

  /** `shared` is the Redis mode; otherwise there is one process, replica 0. */
  predicate Enabled(shared: bool, s: State, e: Event) {
    match e
    case Tick(_) => true
    case Spawn(tid, replica, _, _) => tid !in s.threads && (shared || replica == 0)
    case LockMutex(tid) =>
      tid in s.threads && s.threads[tid].phase.Waiting? &&
      (s.threads[tid].replica, s.threads[tid].key) !in s.mutexes
    case SetNX(tid) => shared && tid in s.threads && s.threads[tid].phase.Polling?
    case GiveUp(tid, taken) =>
      shared && tid in s.threads && s.threads[tid].phase.Polling? && (taken ==> LockFree(s, s.threads[tid].key))
    case Load(tid) => tid in s.threads && s.threads[tid].phase.Critical?
    case Save(tid) => tid in s.threads && s.threads[tid].phase.Loaded?
    case Release(tid, _) => tid in s.threads && s.threads[tid].phase.Done? && s.threads[tid].phase.hold.Leased?
    case Unlock(tid) =>
      tid in s.threads &&
      (s.threads[tid].phase.Released? || (s.threads[tid].phase.Done? && !s.threads[tid].phase.hold.Leased?))
    case Crash(tid) => tid in s.threads && !s.threads[tid].phase.Finished?
  }

  /** Where the step takes its thread. */
  function PhaseAfter(shared: bool, s: State, e: Event): Phase
    requires Enabled(shared, s, e) && !e.Tick? && !e.Spawn?
  {
    var t := s.threads[e.tid];
    match e
    case LockMutex(_) => if shared then Polling else Critical(s.nextTicket, Local)
    case SetNX(_) => if LockFree(s, t.key) then Critical(s.nextTicket, Leased(s.now + LOCK_TTL)) else Polling
    case GiveUp(_, _) => Critical(s.nextTicket, Unlocked)
    case Load(_) =>
      var q := Found(s, t.key);
      if Outcome(t.op, q) then Loaded(t.phase.ticket, t.phase.hold, q, QueueOf(s, t.key).until <= s.now, s.now)
      else Done(t.phase.ticket, t.phase.hold, false)
    case Save(_) => Done(t.phase.ticket, t.phase.hold, true)
    case Release(_, _) => Released(t.phase.result)
    case Unlock(_) => Finished(t.phase.result)
    case Crash(_) => Crashed
  }

  function ThreadAfter(shared: bool, s: State, e: Event): Thread
    requires Enabled(shared, s, e) && !e.Tick?
  {
    if e.Spawn? then Thread(e.replica, e.key, e.op, Waiting)
    else s.threads[e.tid].(phase := PhaseAfter(shared, s, e))
  }

  function MutexesAfter(shared: bool, s: State, e: Event): map<(nat, string), nat>
    requires Enabled(shared, s, e)
  {
    match e
    case LockMutex(tid) => s.mutexes[(s.threads[tid].replica, s.threads[tid].key) := tid]
    case Unlock(tid) => s.mutexes - {(s.threads[tid].replica, s.threads[tid].key)}
    case _ => s.mutexes
  }

  /** The lock keys: SET NX writes only a free key, and the release script
      deletes only the releaser's own token (or never arrives). */
  function LocksAfter(shared: bool, s: State, e: Event): map<string, LockEntry>
    requires Enabled(shared, s, e)
  {
    match e
    case SetNX(tid) =>
      if LockFree(s, s.threads[tid].key) then s.locks[s.threads[tid].key := LockEntry(s.nextTicket, s.now + LOCK_TTL)]
      else s.locks
    case GiveUp(tid, taken) =>
      // a SET NX that failed for the caller may still have taken effect
      if taken then s.locks[s.threads[tid].key := LockEntry(s.nextTicket, s.now + LOCK_TTL)] else s.locks
    case Release(tid, delivered) =>
      var key := s.threads[tid].key;
      if delivered && key in s.locks && s.now < s.locks[key].until && s.locks[key].token == s.threads[tid].phase.ticket
      then s.locks - {key}
      else s.locks
    case _ => s.locks
  }

  /** A saved queue; an empty one, which the code keeps as no entry, reads the same. */
  function QueuesAfter(shared: bool, s: State, e: Event): map<string, StoredQueue>
    requires Enabled(shared, s, e)
  {
    if e.Save? then
      var t := s.threads[e.tid];
      s.queues[t.key := StoredQueue(After(t.op, t.phase.queue, t.phase.at), s.now + QUEUE_TTL)]
    else s.queues
  }

  /** The call a step completes: a load that finds nothing to do, or a save. */
  function CallsAdded(s: State, e: Event, key: string): seq<Call> {
    if (e.Load? || e.Save?) && e.tid in s.threads && s.threads[e.tid].key == key then
      var t := s.threads[e.tid];
      if e.Save? && t.phase.Loaded? then [Call(t.phase.ticket, e.tid, t.op, t.phase.lapsed, t.phase.at, s.now, true)]
      else if e.Load? && t.phase.Critical? && !Outcome(t.op, Found(s, key)) then
        [Call(t.phase.ticket, e.tid, t.op, QueueOf(s, key).until <= s.now, s.now, s.now, false)]
      else []
    else []
  }

  function HistoryAfter(s: State, e: Event): map<string, seq<Call>> {
    if (e.Load? || e.Save?) && e.tid in s.threads then
      var key := s.threads[e.tid].key;
      s.history[key := HistoryOf(s, key) + CallsAdded(s, e, key)]
    else s.history
  }

  function TicketAfter(shared: bool, s: State, e: Event): nat
    requires Enabled(shared, s, e)
  {
    if (e.LockMutex? && !shared) || (e.SetNX? && LockFree(s, s.threads[e.tid].key)) || e.GiveUp? then s.nextTicket + 1
    else s.nextTicket
  }

  function Apply(shared: bool, s: State, e: Event): State
    requires Enabled(shared, s, e)
  {
    State(
      if e.Tick? then s.now + e.ms else s.now,
      if e.Tick? then s.threads else s.threads[e.tid := ThreadAfter(shared, s, e)],
      MutexesAfter(shared, s, e),
      LocksAfter(shared, s, e),
      QueuesAfter(shared, s, e),
      TicketAfter(shared, s, e),
      HistoryAfter(s, e))
  }

  /** The states a run goes through. */
  predicate Run(shared: bool, states: seq<State>, events: seq<Event>) {
    && |states| == |events| + 1
    && states[0] == Init
    && forall i :: 0 <= i < |events| ==> Enabled(shared, states[i], events[i]) && states[i + 1] == Apply(shared, states[i], events[i])
  }

  /** A holder that got the lock and whose lease still runs. */
  predicate InTime(p: Phase, now: int)
    requires Holding(p)
  {
    match p.hold
    case Local => true
    case Leased(until) => now < until
    case Unlocked => false
  }

  /** Every thread in its critical section on the key is in time. In the one-process
      mode this asks for nothing: see LocalIsPunctual. */
  predicate Punctual(s: State, key: string) {
    forall tid :: tid in s.threads && s.threads[tid].key == key && InCritical(s.threads[tid].phase) ==>
      InTime(s.threads[tid].phase, s.now)
  }

  // ---- What every run keeps, however slow or broken its threads are ----

  ghost predicate Tickets(s: State) {
    && (forall t :: t in s.threads && Holding(s.threads[t].phase) ==> s.threads[t].phase.ticket < s.nextTicket)
    && (forall k :: k in s.locks ==> s.locks[k].token < s.nextTicket)
    && UniqueTickets(s.threads)
  }

  ghost predicate UniqueTickets(threads: map<nat, Thread>) {
    forall t, u :: t in threads && u in threads && t != u && Holding(threads[t].phase) && Holding(threads[u].phase) ==>
      threads[t].phase.ticket != threads[u].phase.ticket
  }

  /** A step moves one thread, which keeps its ticket or takes a new one. */
  lemma MoveKeepsUnique(s: State, tid: nat, moved: Thread)
    requires Tickets(s)
    requires Holding(moved.phase) ==>
      || moved.phase.ticket == s.nextTicket
      || (tid in s.threads && Holding(s.threads[tid].phase) && moved.phase.ticket == s.threads[tid].phase.ticket)
    ensures UniqueTickets(s.threads[tid := moved])
  {
  }

  ghost predicate LeasesBacked(s: State) {
    forall t :: t in s.threads && Running(s.threads[t].phase, s.now) ==>
      && s.threads[t].key in s.locks
      && s.locks[s.threads[t].key] == LockEntry(s.threads[t].phase.ticket, s.threads[t].phase.hold.until)
  }

  ghost predicate MutexesOwned(s: State) {
    forall t :: t in s.threads && HasMutex(s.threads[t].phase) ==>
      (s.threads[t].replica, s.threads[t].key) in s.mutexes && s.mutexes[(s.threads[t].replica, s.threads[t].key)] == t
  }

  ghost predicate ModeKept(shared: bool, s: State) {
    forall t :: t in s.threads ==>
      && (!shared ==> s.threads[t].replica == 0)
      && (Holding(s.threads[t].phase) ==> (s.threads[t].phase.hold.Local? <==> !shared))
  }

  ghost predicate Inv(shared: bool, s: State) {
    Tickets(s) && LeasesBacked(s) && MutexesOwned(s) && ModeKept(shared, s)
  }

  lemma StepKeepsTickets(shared: bool, s: State, e: Event)
    requires Tickets(s) && Enabled(shared, s, e)
    ensures Tickets(Apply(shared, s, e))
  {
    var s' := Apply(shared, s, e);
    if !e.Tick? && s'.threads != s.threads {
      MoveKeepsUnique(s, e.tid, s'.threads[e.tid]);
      assert s'.threads == s.threads[e.tid := s'.threads[e.tid]];
    }
  }

  lemma StepKeepsLeases(shared: bool, s: State, e: Event)
    requires Tickets(s) && LeasesBacked(s) && Enabled(shared, s, e)
    ensures LeasesBacked(Apply(shared, s, e))
  {
  }

  lemma StepKeepsMutexes(shared: bool, s: State, e: Event)
    requires MutexesOwned(s) && Enabled(shared, s, e)
    ensures MutexesOwned(Apply(shared, s, e))
  {
  }

  lemma StepKeepsInv(shared: bool, s: State, e: Event)
    requires Inv(shared, s) && Enabled(shared, s, e)
    ensures Inv(shared, Apply(shared, s, e))
  {
    StepKeepsTickets(shared, s, e);
    StepKeepsLeases(shared, s, e);
    StepKeepsMutexes(shared, s, e);
    assert ModeKept(shared, Apply(shared, s, e));
  }

  lemma {:induction false} RunKeepsInv(shared: bool, states: seq<State>, events: seq<Event>, i: nat)
    requires Run(shared, states, events) && i <= |events|
    ensures Inv(shared, states[i])
  {
    if i > 0 {
      RunKeepsInv(shared, states, events, i - 1);
      StepKeepsInv(shared, states[i - 1], events[i - 1]);
    }
  }

  /** Calls come at any time: from any replica when the storage is shared, otherwise from
      the one there is. */
  lemma CallsComeAnyTime(shared: bool, s: State, tid: nat, replica: nat, key: string, op: Op)
    requires tid !in s.threads
    ensures Enabled(shared, s, Spawn(tid, replica, key, op)) <==> shared || replica == 0
    ensures var e := Spawn(tid, replica, key, op);
      Enabled(shared, s, e) ==> Apply(shared, s, e) == s.(threads := s.threads[tid := Thread(replica, key, op, Waiting)])
  {
  }

  /** What the runs have to live with: at any time a thread may die, keeping its lock and
      its mutex for good; one that polls may give up, and its last SET NX, on a free key,
      may still have worked; a release may not arrive; and time passes. */
  lemma MishapsAnyTime(shared: bool, s: State, tid: nat, ms: nat)
    requires tid in s.threads
    ensures Enabled(shared, s, Tick(ms)) && Apply(shared, s, Tick(ms)) == s.(now := s.now + ms)
    ensures var t := s.threads[tid];
      var dies := Crash(tid);
      !t.phase.Finished? ==> Enabled(shared, s, dies) && Apply(shared, s, dies) == s.(threads := s.threads[tid := t.(phase := Crashed)])
    ensures var t := s.threads[tid];
      var stops, taken := s.(threads := s.threads[tid := t.(phase := Critical(s.nextTicket, Unlocked))], nextTicket := s.nextTicket + 1), GiveUp(tid, true);
      shared && t.phase.Polling? ==>
        && Enabled(shared, s, GiveUp(tid, false)) && Apply(shared, s, GiveUp(tid, false)) == stops
        && (Enabled(shared, s, taken) <==> (t.key in s.locks ==> s.locks[t.key].until <= s.now))
        && (Enabled(shared, s, taken) ==>
              Apply(shared, s, taken) == stops.(locks := s.locks[t.key := LockEntry(s.nextTicket, s.now + 5000)]))
    ensures var t := s.threads[tid];
      var lost := Release(tid, false);
      t.phase.Done? && t.phase.hold.Leased? ==>
        Enabled(shared, s, lost) && Apply(shared, s, lost) == s.(threads := s.threads[tid := t.(phase := Released(t.phase.result))])
  {
  }

  lemma Exclusive(shared: bool, s: State, t: nat, u: nat)
    requires Inv(shared, s)
    requires t in s.threads && u in s.threads && s.threads[t].key == s.threads[u].key
    requires InCritical(s.threads[t].phase) && InCritical(s.threads[u].phase)
    requires InTime(s.threads[t].phase, s.now) && InTime(s.threads[u].phase, s.now)
    ensures t == u
  {
  }

  /** At most one thread per key is in its critical section and in time, in every
      run, whatever happened before and whatever all other threads do. */
  lemma {:induction false} MutualExclusion(shared: bool, states: seq<State>, events: seq<Event>, i: nat, t: nat, u: nat)
    requires Run(shared, states, events) && i <= |events|
    requires t in states[i].threads && u in states[i].threads
    requires states[i].threads[t].key == states[i].threads[u].key
    requires InCritical(states[i].threads[t].phase) && InCritical(states[i].threads[u].phase)
    requires InTime(states[i].threads[t].phase, states[i].now) && InTime(states[i].threads[u].phase, states[i].now)
    ensures t == u
  {
    RunKeepsInv(shared, states, events, i);
    Exclusive(shared, states[i], t, u);
  }

  /** In the one-process mode the timing condition is free. */
  lemma {:induction false} LocalIsPunctual(states: seq<State>, events: seq<Event>, i: nat, key: string)
    requires Run(false, states, events) && i <= |events|
    ensures Punctual(states[i], key)
  {
    RunKeepsInv(false, states, events, i);
  }

  /** In every run, a live lock key disappears only by the release of the thread
      that took it, and no step ever puts another token in its place. */
  lemma {:induction false} LockLostOnlyByOwnerOrExpiry(shared: bool, states: seq<State>, events: seq<Event>, i: nat, key: string)
    requires Run(shared, states, events) && i < |events|
    requires key in states[i].locks && states[i].now < states[i].locks[key].until
    ensures
      || (key in states[i + 1].locks && states[i + 1].locks[key] == states[i].locks[key])
      || (events[i].Release? && events[i].tid in states[i].threads &&
          states[i].threads[events[i].tid].key == key &&
          states[i].threads[events[i].tid].phase.ticket == states[i].locks[key].token &&
          key !in states[i + 1].locks)
  {
    RunKeepsInv(shared, states, events, i);
  }

  /** In particular a holder that overran its lease cannot release its successor:
      tickets are never shared, so the releaser above is the very thread the
      live lock belongs to. */
  lemma {:induction false} ForeignReleaseIsHarmless(shared: bool, states: seq<State>, events: seq<Event>, i: nat, owner: nat)
    requires Run(shared, states, events) && i < |events|
    requires owner in states[i].threads && Running(states[i].threads[owner].phase, states[i].now)
    requires events[i].Release? && events[i].tid != owner
    ensures var key := states[i].threads[owner].key;
      key in states[i].locks && key in states[i + 1].locks && states[i + 1].locks[key] == states[i].locks[key]
  {
    RunKeepsInv(shared, states, events, i);
  }
}
