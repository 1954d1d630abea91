/** The pending-request lists kept under one storage key each: the OTP recovery
    queue and one join/leave queue per group. Values only; the imperative
    load-modify-save cycles are in QueueStore.dfy and their interleavings in
    LockProtocol.dfy and LockSerial.dfy. */
module RequestQueue {

  datatype Request = Request(username: string, kind: string, requestedAt: int)

  datatype Op = Add(username: string, kind: string) | Remove(username: string)

  predicate Queued(q: seq<Request>, user: string) {
    exists i :: 0 <= i < |q| && q[i].username == user
  }

  function Without(q: seq<Request>, user: string): (r: seq<Request>)
    ensures !Queued(r, user)
    ensures forall u :: u != user ==> (Queued(r, u) <==> Queued(q, u))
    ensures |r| <= |q|
    ensures |r| == |q| <==> !Queued(q, user)
  {
    if q == [] then []
    else
      var last := q[|q| - 1];
      var rest := Without(q[..|q| - 1], user);
      assert q == q[..|q| - 1] + [last];
      assert forall u :: Queued(q, u) <==> Queued(q[..|q| - 1], u) || last.username == u by {
        forall u ensures Queued(q, u) <==> Queued(q[..|q| - 1], u) || last.username == u {
          QueuedAppend(q[..|q| - 1], last, u);
        }
      }
      if last.username == user then rest
      else
        assert forall u :: Queued(rest + [last], u) <==> Queued(rest, u) || last.username == u by {
          forall u ensures Queued(rest + [last], u) <==> Queued(rest, u) || last.username == u {
            QueuedAppend(rest, last, u);
          }
        }
        rest + [last]
  }

  lemma {:induction false} WithoutKeeps(q: seq<Request>, user: string, r: Request)
    ensures r in Without(q, user) <==> r in q && r.username != user
  {
    if q != [] {
      WithoutKeeps(q[..|q| - 1], user, r);
      assert q == q[..|q| - 1] + [q[|q| - 1]];
    }
  }

  lemma {:induction false} WithoutConcat(a: seq<Request>, b: seq<Request>, user: string)
    ensures Without(a + b, user) == Without(a, user) + Without(b, user)
  {
    if b == [] {
      assert a + b == a;
    } else {
      var rest, last := b[..|b| - 1], b[|b| - 1];
      assert (a + b)[..|a + b| - 1] == a + rest && (a + b)[|a + b| - 1] == last;
      WithoutConcat(a, rest, user);
    }
  }

  lemma QueuedAppend(q: seq<Request>, r: Request, user: string)
    ensures Queued(q + [r], user) <==> Queued(q, user) || r.username == user
  {
    if Queued(q, user) {
      var i :| 0 <= i < |q| && q[i].username == user;
      assert (q + [r])[i].username == user;
    }
    assert (q + [r])[|q|] == r;
  }

  /** What the add or remove call reports when it finds the queue `q`. */
  predicate Outcome(op: Op, q: seq<Request>) {
    match op
    case Add(user, _) => !Queued(q, user)
    case Remove(user) => Queued(q, user)
  }

  /** The queue the call leaves behind; an unsuccessful call saves nothing. */
  function After(op: Op, q: seq<Request>, at: int): seq<Request> {
    if !Outcome(op, q) then q
    else match op
      case Add(user, kind) => q + [Request(user, kind, at)]
      case Remove(user) => Without(q, user)
  }

  /** In other words: an add works for a user who is not queued and puts the request at
      the end; a remove works for one who is, and leaves everybody else's requests. */
  lemma CallMeans(op: Op, q: seq<Request>, at: int)
    ensures var queued := exists i :: 0 <= i < |q| && q[i].username == op.username;
      && (Outcome(op, q) <==> (op.Add? <==> !queued))
      && After(op, q, at) == (
         if op.Add? && !queued then q + [Request(op.username, op.kind, at)]
         else if op.Remove? && queued then Without(q, op.username)
         else q)
  {
  }
}
