/** The load-modify-save cycles on a request queue, run while the storage lock is
    held. The OTP recovery queue uses one key and no kind; every group has its
    own key and the kinds "join" and "leave". */
module QueueStore {
  import opened Wrappers
  import opened RequestQueue
  import opened Seqs
  import opened Storage
  import LockProtocol

  /** What a load returns: nothing when there is no live entry or the read fails. */
  function LoadedFrom(c: Contents<seq<Request>>, key: string, now: int, readable: bool): seq<Request> {
    if readable && Live(c, key, now).Some? then Live(c, key, now).value else []
  }

  /** An empty list is stored as no entry at all. */
  function Saved(c: Contents<seq<Request>>, key: string, reqs: seq<Request>, now: int): Contents<seq<Request>> {
    if reqs == [] then c - {key} else Put(c, key, reqs, LockProtocol.QUEUE_TTL, now)
  }

  /** For 30 days a load that works finds the list last saved; other keys keep theirs. */
  lemma SavedIsLoaded(c: Contents<seq<Request>>, key: string, other: string, reqs: seq<Request>, now: int, later: int)
    requires later < now + 30 * 24 * 3600 * 1000 && other != key
    ensures LoadedFrom(Saved(c, key, reqs, now), key, later, true) == reqs
    ensures key in Saved(c, key, reqs, now) <==> reqs != []
    ensures LoadedFrom(Saved(c, key, reqs, now), other, later, true) == LoadedFrom(c, other, later, true)
  {
  }

  lemma WithoutIsFilter(q: seq<Request>, user: string, keep: Request -> bool)
    requires forall r :: keep(r) <==> r.username != user
    ensures Filter(q, keep) == Without(q, user)
  {
  }

  class RequestStore {
    const storage: Store<seq<Request>>
    const key: string

    constructor (storage: Store<seq<Request>>, key: string)
      ensures this.storage == storage && this.key == key
    {
      this.storage, this.key := storage, key;
    }

    method Load(readable: bool) returns (reqs: seq<Request>)
      ensures reqs == LoadedFrom(storage.contents, key, storage.now, readable)
      ensures reqs != [] ==>
        readable && key in storage.contents && storage.contents[key].value == reqs &&
        (storage.contents[key].deadline.Some? ==> storage.now < storage.contents[key].deadline.value)
    {
      var r := storage.Get(key, readable);
      reqs := if r.Ok? && r.value.Some? then r.value.value else [];
    }

    method Save(reqs: seq<Request>, writable: bool) returns (ok: bool)
      modifies storage`contents
      ensures ok == writable
      ensures storage.contents == if writable then Saved(old(storage.contents), key, reqs, storage.now) else old(storage.contents)
    {
      if |reqs| == 0 {
        ok := storage.Delete(key, writable);
      } else {
        ok := storage.Set(key, reqs, LockProtocol.QUEUE_TTL, writable);
      }
    }

    /** Queues a request; false when one is already queued. The result speaks
        about the list that was loaded, and a failed save is only logged. */
    method AddRequest(username: string, kind: string, readable: bool, writable: bool) returns (added: bool)
      modifies storage`contents
      ensures var loaded := LoadedFrom(old(storage.contents), key, storage.now, readable);
        && (added <==> forall i :: 0 <= i < |loaded| ==> loaded[i].username != username)
        && storage.contents ==
          (if added && writable then
             old(storage.contents)[key := Entry(loaded + [Request(username, kind, storage.now)], Some(storage.now + 30 * 24 * 3600 * 1000))]
           else old(storage.contents))
        && added == Outcome(Add(username, kind), loaded)
        && (added ==> loaded + [Request(username, kind, storage.now)] == After(Add(username, kind), loaded, storage.now))
    {
      var reqs := Load(readable);
      for i := 0 to |reqs|
        invariant forall j :: 0 <= j < i ==> reqs[j].username != username
      {
        if reqs[i].username == username {
          return false;
        }
      }
      var _ := Save(reqs + [Request(username, kind, storage.now)], writable);
      added := true;
    }

    /** Takes the user's request out of the queue and tells whether there was one. */
    method RemoveRequest(username: string, readable: bool, writable: bool) returns (removed: bool)
      modifies storage`contents
      ensures var loaded := LoadedFrom(old(storage.contents), key, storage.now, readable);
        && (removed <==> exists i :: 0 <= i < |loaded| && loaded[i].username == username)
        && storage.contents ==
          (if removed && writable then Saved(old(storage.contents), key, Without(loaded, username), storage.now)
           else old(storage.contents))
        && removed == Outcome(Remove(username), loaded)
        && (removed ==> Without(loaded, username) == After(Remove(username), loaded, storage.now))
    {
      var reqs := Load(readable);
      var buffer := ToArray(reqs);
      var keep := (r: Request) => r.username != username;
      var kept := Compact(buffer, keep);
      WithoutIsFilter(reqs, username, keep);
      if kept == buffer.Length {
        return false;
      }
      var _ := Save(buffer[..kept], writable);
      removed := true;
    }
  }
}
