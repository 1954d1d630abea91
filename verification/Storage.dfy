/** The key/value store shared by all components: entries carry a deadline, time
    is a field in milliseconds, and any call may fail: its argument `works` says
    whether the backend answers. A failed call leaves the contents alone. JSON
    encoding is abstracted: values are stored as they are. */
module Storage {
  import opened Wrappers

  datatype Entry<V> = Entry(value: V, deadline: Option<int>)
  type Contents<V> = map<string, Entry<V>>

  predicate Alive<V>(c: Contents<V>, key: string, now: int) {
    key in c && (c[key].deadline.None? || now < c[key].deadline.value)
  }

  function Live<V>(c: Contents<V>, key: string, now: int): Option<V> {
    if Alive(c, key, now) then Some(c[key].value) else None
  }

  /** A zero TTL means no deadline. */
  function Put<V>(c: Contents<V>, key: string, v: V, ttl: int, now: int): Contents<V> {
    c[key := Entry(v, if ttl == 0 then None else Some(now + ttl))]
  }

  class Store<V> {
    var contents: Contents<V>
    var now: int

    constructor ()
      ensures contents == map[] && now == 0
    {
      contents, now := map[], 0;
    }

    method Get(key: string, works: bool) returns (r: Result<Option<V>>)
      ensures r == if works then Ok(Live(contents, key, now)) else Err
    {
      r := Err;
      if works {
        r := Ok(if key in contents && (contents[key].deadline.None? || now < contents[key].deadline.value)
                then Some(contents[key].value) else None);
      }
    }

    method Set(key: string, v: V, ttl: int, works: bool) returns (ok: bool)
      modifies this`contents
      ensures ok == works
      ensures contents == if works then Put(old(contents), key, v, ttl, now) else old(contents)
    {
      ok := false;
      if works {
        contents := contents[key := Entry(v, if ttl == 0 then None else Some(now + ttl))];
        ok := true;
      }
    }

    method Delete(key: string, works: bool) returns (ok: bool)
      modifies this`contents
      ensures ok == works
      ensures contents == if works then old(contents) - {key} else old(contents)
    {
      ok := false;
      if works {
        contents := contents - {key};
        ok := true;
      }
    }

    /** Time passes between two calls. */
    method Elapse(ms: nat)
      modifies this`now
      ensures now == old(now) + ms
    {
      now := now + ms;
    }
  }
}
