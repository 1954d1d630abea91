/** The audit ring buffer: the last RING_SIZE events, event number `i` in slot
    i % 1000, next to a counter of all events ever recorded. */
module AuditRing {
  import opened Wrappers
  import opened Seqs

  const RING_SIZE: nat := 1000

  /** `seqno` is 0 in entries written before sequence numbers were stored. */
  datatype AuditEvent = AuditEvent(seqno: nat, username: string, actor: string, message: string)

  type Slots = map<nat, AuditEvent>

  function Slot(i: nat): nat { i % 1000 }

  function Take<T>(s: seq<T>, n: nat): seq<T> {
    if |s| <= n then s else s[..n]
  }

  predicate Involves(e: AuditEvent, user: string) {
    e.username == user || e.actor == user
  }

  /** What the slots hold for the numbers in (lo, hi], oldest first. */
  function Entries(slots: Slots, lo: nat, hi: nat): (r: seq<AuditEvent>)
    ensures |r| <= if lo < hi then hi - lo else 0
  {
    if hi <= lo then []
    else Entries(slots, lo, hi - 1) + if Slot(hi) in slots then [slots[Slot(hi)]] else []
  }

  /** For the cursor API an entry counts only under its own number, if it has one. */
  predicate Stands(slots: Slots, i: nat) {
    Slot(i) in slots && (slots[Slot(i)].seqno == 0 || slots[Slot(i)].seqno == i)
  }

  function Numbered(slots: Slots, i: nat): seq<AuditEvent> {
    if Stands(slots, i) then [slots[Slot(i)].(seqno := i)] else []
  }

  function NumberedFrom(slots: Slots, lo: nat, hi: nat): seq<AuditEvent> {
    if hi <= lo then []
    else
      var rest := NumberedFrom(slots, lo, hi - 1);
      if Stands(slots, hi) then rest + [slots[Slot(hi)].(seqno := hi)] else rest
  }

  /** An entry in a slot counts under the number that the slot is read for. */
  predicate ReadAs(slots: Slots, i: nat, e: AuditEvent) {
    && i % 1000 in slots && (slots[i % 1000].seqno == 0 || slots[i % 1000].seqno == i)
    && e == AuditEvent(i, slots[i % 1000].username, slots[i % 1000].actor, slots[i % 1000].message)
  }

  /** What the cursor API reads: the entries that stand in the slot of their own number or
      carry none, numbered, in order. */
  lemma {:induction false} NumberedFromMeans(slots: Slots, lo: nat, hi: nat)
    ensures forall i: nat, e :: lo < i <= hi && ReadAs(slots, i, e) ==> e in NumberedFrom(slots, lo, hi)
    ensures forall e :: e in NumberedFrom(slots, lo, hi) ==> lo < e.seqno <= hi && ReadAs(slots, e.seqno, e)
    ensures forall j, k :: 0 <= j < k < |NumberedFrom(slots, lo, hi)| ==> NumberedFrom(slots, lo, hi)[j].seqno < NumberedFrom(slots, lo, hi)[k].seqno
  {
    if lo < hi {
      NumberedFromMeans(slots, lo, hi - 1);
    }
  }

  /** What the other readers see: whatever the slots of the numbers hold. */
  lemma {:induction false} EntriesMean(slots: Slots, lo: nat, hi: nat)
    ensures forall i: nat :: lo < i <= hi && i % 1000 in slots ==> slots[i % 1000] in Entries(slots, lo, hi)
    ensures forall e :: e in Entries(slots, lo, hi) ==> exists i: nat :: lo < i <= hi && Slot(i) in slots && slots[Slot(i)] == e
  {
    if lo < hi {
      EntriesMean(slots, lo, hi - 1);
    }
  }

  function WindowStart(count: nat): nat {
    if count <= RING_SIZE then 0 else count - RING_SIZE
  }

  /** Where a cursor resumes: ahead of the counter it starts over. */
  function ResumeAt(after: int, count: nat): nat {
    var from := if after > count || after < 0 then 0 else after;
    if from < WindowStart(count) then WindowStart(count) else from
  }

  /** The slots hold the newest entries of the unbounded log. */
  ghost predicate Agrees(slots: Slots, log: seq<AuditEvent>) {
    forall i :: WindowStart(|log|) < i <= |log| ==> Slot(i) in slots && slots[Slot(i)] == log[i - 1]
  }

  ghost predicate NumberedLog(log: seq<AuditEvent>) {
    forall i :: 0 <= i < |log| ==> log[i].seqno == i + 1
  }

  // ---- The ring refines the log ----

  lemma {:induction false} EntriesAreLog(slots: Slots, log: seq<AuditEvent>, lo: nat, hi: nat)
    requires Agrees(slots, log) && WindowStart(|log|) <= lo <= hi <= |log|
    ensures Entries(slots, lo, hi) == log[lo..hi]
  {
    if lo < hi {
      EntriesAreLog(slots, log, lo, hi - 1);
      assert log[lo..hi] == log[lo..hi - 1] + [log[hi - 1]];
    }
  }

  lemma {:induction false} NumberedAreLog(slots: Slots, log: seq<AuditEvent>, lo: nat, hi: nat)
    requires Agrees(slots, log) && NumberedLog(log) && WindowStart(|log|) <= lo <= hi <= |log|
    ensures NumberedFrom(slots, lo, hi) == log[lo..hi]
  {
    if lo < hi {
      NumberedAreLog(slots, log, lo, hi - 1);
      assert log[lo..hi] == log[lo..hi - 1] + [log[hi - 1]];
      NumberedEntry(slots, log, hi);
    }
  }

  lemma NumberedEntry(slots: Slots, log: seq<AuditEvent>, i: nat)
    requires Agrees(slots, log) && NumberedLog(log) && WindowStart(|log|) < i <= |log|
    ensures Stands(slots, i) && slots[Slot(i)].(seqno := i) == log[i - 1]
  {
    assert slots[Slot(i)] == log[i - 1] && log[i - 1].seqno == i;
  }

  lemma RecordKeepsAgreement(slots: Slots, log: seq<AuditEvent>, e: AuditEvent)
    requires Agrees(slots, log)
    ensures Agrees(slots[Slot(|log| + 1) := e], log + [e])
  {
    var log' := log + [e];
    forall i | WindowStart(|log'|) < i <= |log'|
      ensures slots[Slot(|log| + 1) := e][Slot(i)] == log'[i - 1]
    {
      if i <= |log| {
        DistinctSlots(i, |log| + 1);
      }
    }
  }

  lemma DistinctSlots(i: nat, j: nat)
    requires i < j < i + RING_SIZE
    ensures Slot(i) != Slot(j)
  {
  }

  class Ring {
    var counter: nat
    var slots: Slots
    ghost var log: seq<AuditEvent>

    ghost predicate Valid()
      reads this
    {
      counter == |log| && NumberedLog(log) && Agrees(slots, log)
    }

    constructor ()
      ensures Valid() && log == []
    {
      counter, slots, log := 0, map[], [];
    }

    /** Hands out 1, 2, 3, ...; a failed call hands out nothing. */
    method Incr(works: bool) returns (seqno: Option<nat>)
      modifies this`counter
      ensures seqno == (if works then Some(old(counter) + 1) else None)
      ensures counter == if works then old(counter) + 1 else old(counter)
    {
      seqno := None;
      if works {
        counter := counter + 1;
        seqno := Some(counter);
      }
    }

    /** Without a number nothing is recorded. An event whose slot cannot be written
        has used its number up, and the slot keeps the event it held. */
    method Record(username: string, actor: string, message: string, numbered: bool, writable: bool) returns (r: Option<AuditEvent>)
      requires Valid()
      modifies this
      ensures r == if numbered && writable then Some(AuditEvent(old(counter) + 1, username, actor, message)) else None
      ensures r.Some? ==> Valid() && log == old(log) + [r.value]
      ensures !numbered ==> Valid() && counter == old(counter) && slots == old(slots) && log == old(log)
      ensures numbered && !writable ==> counter == old(counter) + 1 && slots == old(slots)
    {
      RecordKeepsAgreement(slots, log, AuditEvent(|log| + 1, username, actor, message));
      r := None;
      var seqno := Incr(numbered);
      if seqno.Some? && writable {
        var e := AuditEvent(seqno.value, username, actor, message);
        slots := slots[seqno.value % 1000 := e];
        log := log + [e];
        r := Some(e);
      }
    }

    /** Up to n most recent events, newest first. */
    method Recent(n: nat) returns (events: seq<AuditEvent>)
      ensures events == Take(Reversed(Entries(slots, WindowStart(counter), counter)), n)
      ensures Valid() ==> events == Reversed(log[|log| - Shown(|log|, n)..])
    {
      events := ScanRecent(n);
      if Valid() {
        RecentIsLog(slots, log, n);
      }
    }

    method ScanRecent(n: nat) returns (events: seq<AuditEvent>)
      ensures events == Take(Reversed(Entries(slots, WindowStart(counter), counter)), n)
    {
      events := [];
      var i := counter;
      while i > 0 && i > counter - RING_SIZE && |events| < n
        invariant WindowStart(counter) <= i <= counter
        invariant |events| <= n && events == Reversed(Entries(slots, i, counter))
      {
        EntriesFromFront(slots, i, counter);
        if Slot(i) in slots {
          events := events + [slots[Slot(i)]];
        }
        i := i - 1;
      }
      EntriesSplit(slots, WindowStart(counter), i, counter);
      TakeOfReversed(Entries(slots, WindowStart(counter), i), Entries(slots, i, counter), n);
    }

    /** Up to n most recent events the user is the subject or the actor of. */
    method UserRecent(user: string, n: nat) returns (events: seq<AuditEvent>)
      ensures events == Take(NewestByUser(slots, WindowStart(counter), counter, user), n)
      ensures Valid() ==> events == Take(Reversed(ByUser(log[WindowStart(|log|)..], user)), n)
    {
      events := ScanUser(user, n);
      if Valid() {
        assert counter == |log|;
        UserRecentIsLog(slots, log, user, n);
      }
    }

    method ScanUser(user: string, n: nat) returns (events: seq<AuditEvent>)
      ensures events == Take(NewestByUser(slots, WindowStart(counter), counter, user), n)
    {
      events := [];
      var i := counter;
      while i > 0 && i > counter - RING_SIZE && |events| < n
        invariant WindowStart(counter) <= i <= counter
        invariant |events| <= n && events == NewestByUser(slots, i, counter, user)
      {
        if Slot(i) in slots {
          var e := slots[Slot(i)];
          if e.username == user || e.actor == user {
            events := events + [e];
          }
        }
        i := i - 1;
      }
      NewerFirst(slots, WindowStart(counter), i, counter, user);
    }

    /** Up to n events after the cursor, oldest first. */
    method After(after: int, n: nat) returns (events: seq<AuditEvent>)
      ensures events == Take(NumberedFrom(slots, ResumeAt(after, counter), counter), n)
      ensures Valid() ==> events == Take(log[ResumeAt(after, |log|)..], n)
    {
      events := ScanAfter(after, n);
      if Valid() {
        assert counter == |log|;
        var start := ResumeAt(after, |log|);
        NumberedAreLog(slots, log, start, |log|);
        assert log[start..|log|] == log[start..];
      }
    }

    method ScanAfter(after: int, n: nat) returns (events: seq<AuditEvent>)
      ensures events == Take(NumberedFrom(slots, ResumeAt(after, counter), counter), n)
    {
      var from := if after > counter || after < 0 then 0 else after;
      events := [];
      var start := if from >= counter - RING_SIZE then from else counter - RING_SIZE;
      var i := start + 1;
      while i <= counter && |events| < n
        invariant 0 <= start < i <= counter + 1 && start == ResumeAt(after, counter)
        invariant |events| <= n && events == NumberedFrom(slots, start, i - 1)
      {
        if Slot(i) in slots {
          var e := slots[Slot(i)];
          if e.seqno == 0 {
            e := e.(seqno := i);
          }
          if e.seqno == i {
            events := events + [e];
          }
        }
        i := i + 1;
      }
      EarlierFirst(slots, start, i - 1, counter);
    }
  }

  /** The entries about the user, in order. */
  function ByUser(s: seq<AuditEvent>, user: string): seq<AuditEvent> {
    if s == [] then []
    else ByUser(s[..|s| - 1], user) + if Involves(s[|s| - 1], user) then [s[|s| - 1]] else []
  }

  /** The entries whose subject or actor the user is. */
  lemma {:induction false} ByUserIsFilter(s: seq<AuditEvent>, user: string, about: AuditEvent -> bool)
    requires forall e :: about(e) <==> e.username == user || e.actor == user
    ensures ByUser(s, user) == Filter(s, about)
  {
    if s != [] {
      ByUserIsFilter(s[..|s| - 1], user, about);
    }
  }

  lemma {:induction false} ByUserMembers(s: seq<AuditEvent>, user: string)
    ensures forall e :: e in ByUser(s, user) <==> e in s && (e.username == user || e.actor == user)
  {
    if s != [] {
      ByUserMembers(s[..|s| - 1], user);
      assert s == s[..|s| - 1] + [s[|s| - 1]];
    }
  }

  lemma {:induction false} ByUserConcat(a: seq<AuditEvent>, b: seq<AuditEvent>, user: string)
    ensures ByUser(a + b, user) == ByUser(a, user) + ByUser(b, user)
  {
    if b == [] {
      assert a + b == a;
    } else {
      var front, last := b[..|b| - 1], b[|b| - 1];
      ByUserConcat(a, front, user);
      assert (a + b)[..|a + b| - 1] == a + front;
    }
  }

  lemma ByUserCons(e: AuditEvent, s: seq<AuditEvent>, user: string)
    ensures ByUser([e] + s, user) == if Involves(e, user) then [e] + ByUser(s, user) else ByUser(s, user)
  {
    ByUserConcat([e], s, user);
    assert [e][..0] == [];
    assert ByUser([e], user) == if Involves(e, user) then [e] else [];
  }

  /** The entries about the user numbered in (lo, hi], newest first. */
  function NewestByUser(slots: Slots, lo: nat, hi: nat, user: string): seq<AuditEvent>
    decreases hi - lo
  {
    if hi <= lo then []
    else
      var newer := NewestByUser(slots, lo + 1, hi, user);
      if Slot(lo + 1) in slots && Involves(slots[Slot(lo + 1)], user) then newer + [slots[Slot(lo + 1)]] else newer
  }

  lemma ReversedCons<T>(x: T, s: seq<T>)
    ensures Reversed([x] + s) == Reversed(s) + [x]
  {
  }

  lemma {:induction false} NewestByUserIs(slots: Slots, lo: nat, hi: nat, user: string)
    ensures NewestByUser(slots, lo, hi, user) == Reversed(ByUser(Entries(slots, lo, hi), user))
    decreases hi - lo
  {
    if lo < hi {
      NewestByUserIs(slots, lo + 1, hi, user);
      EntriesFromFront(slots, lo + 1, hi);
      if Slot(lo + 1) in slots {
        var e, later := slots[Slot(lo + 1)], Entries(slots, lo + 1, hi);
        assert Entries(slots, lo, hi) == [e] + later;
        ByUserCons(e, later, user);
        ReversedCons(e, ByUser(later, user));
      }
    }
  }

  lemma {:induction false} NewerFirst(slots: Slots, lo: nat, i: nat, hi: nat, user: string)
    requires lo <= i
    ensures NewestByUser(slots, i, hi, user) <= NewestByUser(slots, lo, hi, user)
    decreases i - lo
  {
    if lo < i {
      NewerFirst(slots, lo + 1, i, hi, user);
    }
  }

  lemma {:induction false} EntriesFromFront(slots: Slots, i: nat, hi: nat)
    requires 0 < i <= hi
    ensures Entries(slots, i - 1, hi) ==
            if Slot(i) in slots then [slots[Slot(i)]] + Entries(slots, i, hi) else Entries(slots, i, hi)
  {
    if i < hi {
      EntriesFromFront(slots, i, hi - 1);
    }
  }

  lemma {:induction false} EntriesSplit(slots: Slots, lo: nat, mid: nat, hi: nat)
    requires lo <= mid <= hi
    ensures Entries(slots, lo, hi) == Entries(slots, lo, mid) + Entries(slots, mid, hi)
  {
    if mid < hi {
      EntriesSplit(slots, lo, mid, hi - 1);
    }
  }

  lemma TakeOfReversed<T>(a: seq<T>, b: seq<T>, n: nat)
    requires |b| <= n && (|b| == n || a == [])
    ensures Take(Reversed(a + b), n) == Reversed(b)
  {
  }

  lemma {:induction false} EarlierFirst(slots: Slots, lo: nat, mid: nat, hi: nat)
    requires lo <= mid <= hi
    ensures NumberedFrom(slots, lo, mid) <= NumberedFrom(slots, lo, hi)
  {
    if mid < hi {
      EarlierFirst(slots, lo, mid, hi - 1);
    }
  }

  // ---- The ring refines the log ----

  /** How many of `count` events are shown: min(n, RING_SIZE, count). */
  function Shown(count: nat, n: nat): nat {
    if n < count - WindowStart(count) then n else count - WindowStart(count)
  }

  /** auditRecent shows the last min(n, 1000, count) log entries, newest first. */
  lemma RecentIsLog(slots: Slots, log: seq<AuditEvent>, n: nat)
    requires Agrees(slots, log)
    ensures Take(Reversed(Entries(slots, WindowStart(|log|), |log|)), n) ==
            Reversed(log[|log| - Shown(|log|, n)..])
    ensures var newest := if |log| < 1000 then |log| else 1000; Shown(|log|, n) == if n < newest then n else newest
  {
    EntriesAreLog(slots, log, WindowStart(|log|), |log|);
    TakeReversed(log, WindowStart(|log|), n);
  }

  lemma TakeReversed<T>(s: seq<T>, lo: nat, n: nat)
    requires lo <= |s|
    ensures Take(Reversed(s[lo..|s|]), n) == Reversed(s[|s| - (if n < |s| - lo then n else |s| - lo)..])
  {
  }

  /** auditUserRecent shows that window filtered by user and cut to n. */
  lemma UserRecentIsLog(slots: Slots, log: seq<AuditEvent>, user: string, n: nat)
    requires Agrees(slots, log)
    ensures Take(NewestByUser(slots, WindowStart(|log|), |log|, user), n) ==
            Take(Reversed(ByUser(log[WindowStart(|log|)..], user)), n)
    ensures WindowStart(|log|) == if |log| <= 1000 then 0 else |log| - 1000
  {
    NewestByUserIs(slots, WindowStart(|log|), |log|, user);
    EntriesAreLog(slots, log, WindowStart(|log|), |log|);
    assert log[WindowStart(|log|)..|log|] == log[WindowStart(|log|)..];
  }

  /** auditAfter shows the first n log entries numbered in (max(after, count - 1000), count];
      a cursor that is negative or ahead of the counter starts over, as from 0. */
  lemma AfterIsLog(slots: Slots, log: seq<AuditEvent>, after: int, n: nat)
    requires Agrees(slots, log) && NumberedLog(log)
    ensures var begin := if 0 <= after <= |log| then after else 0;
      var start := if begin < |log| - 1000 then |log| - 1000 else begin;
      && Take(NumberedFrom(slots, ResumeAt(after, |log|), |log|), n) == Take(log[start..], n)
      && forall i :: 0 <= i < |log[start..]| ==> log[start..][i].seqno == start + 1 + i
  {
    var start := ResumeAt(after, |log|);
    NumberedAreLog(slots, log, start, |log|);
    assert log[start..|log|] == log[start..];
    Consecutive(log, start);
  }

  lemma Consecutive(log: seq<AuditEvent>, start: nat)
    requires NumberedLog(log) && start <= |log|
    ensures forall i :: 0 <= i < |log[start..]| ==> log[start..][i].seqno == start + 1 + i
  {
    forall i | 0 <= i < |log[start..]| ensures log[start..][i].seqno == start + 1 + i {
      assert log[start..][i] == log[start + i];
    }
  }

  // ---- The events API ----

  datatype Batch = Batch(events: seq<AuditEvent>, next: int) | BadRequest

  function NextCursor(after: int, events: seq<AuditEvent>): int {
    if events == [] then after else events[|events| - 1].seqno
  }

  /** Answers exactly the requests with a non-negative cursor and a limit between
      1 and the ring size. */
  method ApiEvents(ring: Ring, after: int, limit: int) returns (r: Batch)
    ensures r.BadRequest? <==> after < 0 || limit < 1 || limit > 1000
    ensures r.Batch? ==> r.events == Take(NumberedFrom(ring.slots, ResumeAt(after, ring.counter), ring.counter), limit)
    ensures r.Batch? ==> r.next == NextCursor(after, r.events) == if r.events == [] then after else r.events[|r.events| - 1].seqno
    ensures r.Batch? && ring.Valid() ==> r.events == Take(ring.log[ResumeAt(after, |ring.log|)..], limit)
  {
    if after < 0 || limit < 1 || limit > RING_SIZE {
      return BadRequest;
    }
    var events := ring.After(after, limit);
    var next := after;
    if |events| > 0 {
      next := events[|events| - 1].seqno;
    }
    r := Batch(events, next);
  }

  function AfterOf(slots: Slots, count: nat, after: int, n: nat): seq<AuditEvent> {
    Take(NumberedFrom(slots, ResumeAt(after, count), count), n)
  }

  /** The same answer taken from the log. */
  function LogAfter(log: seq<AuditEvent>, after: nat, n: nat): seq<AuditEvent>
    requires after <= |log|
  {
    Take(log[ResumeAt(after, |log|)..], n)
  }

  lemma AfterOfLog(slots: Slots, log: seq<AuditEvent>, after: nat, n: nat)
    requires Agrees(slots, log) && NumberedLog(log) && after <= |log|
    ensures AfterOf(slots, |log|, after, n) == LogAfter(log, after, n)
  {
    NumberedAreLog(slots, log, ResumeAt(after, |log|), |log|);
  }

  lemma LogPages(log: seq<AuditEvent>, after: nat, n: nat, m: nat) returns (next: nat)
    requires NumberedLog(log) && after <= |log|
    ensures next <= |log| && NextCursor(after, LogAfter(log, after, n)) == next
    ensures LogAfter(log, after, n) + LogAfter(log, next, m) == LogAfter(log, after, n + m)
  {
    var start, first := ResumeAt(after, |log|), LogAfter(log, after, n);
    next := after;
    if first != [] {
      next := start + |first|;
      assert first[|first| - 1] == log[next - 1];
      TakeTwice(log, start, |first|, n, m);
    }
  }

  /** Feeding `next` back continues where the last answer stopped: two answers in a
      row are one answer of both limits together. */
  lemma PagesConcatenate(slots: Slots, log: seq<AuditEvent>, after: nat, n: nat, m: nat)
    requires Agrees(slots, log) && NumberedLog(log) && after <= |log|
    ensures var first := AfterOf(slots, |log|, after, n);
      first + AfterOf(slots, |log|, NextCursor(after, first), m) == AfterOf(slots, |log|, after, n + m)
  {
    var next := LogPages(log, after, n, m);
    AfterOfLog(slots, log, after, n);
    AfterOfLog(slots, log, next, m);
    AfterOfLog(slots, log, after, n + m);
  }

  lemma TakeTwice<T>(s: seq<T>, start: nat, k: nat, n: nat, m: nat)
    requires start + k <= |s| && k == |Take(s[start..], n)|
    ensures Take(s[start..], n) + Take(s[start + k..], m) == Take(s[start..], n + m)
  {
  }
}
