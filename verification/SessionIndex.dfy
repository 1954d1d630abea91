/** The per-user session index: which logins of a user are known, next to the
    session data itself. The index can be read; reading or deleting session data
    and saving an index may fail, which the code logs, does not count, or takes
    for a dead session. */
module SessionIndex {
  import opened Seqs

  const MAX_SESSIONS := 20
  const INDEX_TTL := 30 * 24 * 3600 * 1000

  datatype UserSession = UserSession(sid: string, login: int, device: string)

  /** An entry as the security page shows it. */
  datatype Listing = Listing(session: UserSession, current: bool)

  datatype Stored = Stored(sessions: seq<UserSession>, until: int)

  function OtherThan(sid: string): UserSession -> bool {
    (s: UserSession) => s.sid != sid
  }

  function Only(sid: string): UserSession -> bool {
    (s: UserSession) => s.sid == sid
  }

  /** Whether the session data is found; an id whose read fails counts as dead. */
  function LiveAt(data: map<string, int>, now: int, unreadable: set<string>): UserSession -> bool {
    (s: UserSession) => s.sid !in unreadable && s.sid in data && now < data[s.sid]
  }

  function Capped(list: seq<UserSession>): seq<UserSession> {
    if |list| > MAX_SESSIONS then list[|list| - MAX_SESSIONS..] else list
  }

  function Recorded(list: seq<UserSession>, s: UserSession): seq<UserSession> {
    Capped(Filter(list, OtherThan(s.sid)) + [s])
  }

  /** Newest first, the caller's own entry marked. */
  function Shown(live: seq<UserSession>, current: string): (r: seq<Listing>)
    ensures |r| == |live|
    ensures forall i :: 0 <= i < |r| ==> r[i] == Listing(live[|live| - 1 - i], live[|live| - 1 - i].sid == current)
  {
    seq(|live|, i requires 0 <= i < |live| => Listing(live[|live| - 1 - i], live[|live| - 1 - i].sid == current))
  }

  predicate Before(a: UserSession, b: UserSession) {
    a.sid != b.sid && a.login <= b.login
  }

  /** Pairwise distinct ids, oldest first, at most MAX_SESSIONS entries. */
  ghost predicate WellFormed(list: seq<UserSession>, now: int) {
    && (forall i, j :: 0 <= i < j < |list| ==> Before(list[i], list[j]))
    && (forall i :: 0 <= i < |list| ==> list[i].login <= now)
    && |list| <= MAX_SESSIONS
  }

  lemma FilterWellFormed(list: seq<UserSession>, keep: UserSession -> bool, now: int)
    requires WellFormed(list, now)
    ensures WellFormed(Filter(list, keep), now)
  {
    FilterKeepsOrder(list, keep, Before);
    forall i | 0 <= i < |Filter(list, keep)| ensures Filter(list, keep)[i].login <= now {
      assert Filter(list, keep)[i] in list;
    }
  }

  lemma RecordedWellFormed(list: seq<UserSession>, s: UserSession)
    requires WellFormed(list, s.login)
    ensures WellFormed(Recorded(list, s), s.login)
    ensures s in Recorded(list, s)
  {
    var kept := Filter(list, OtherThan(s.sid));
    FilterWellFormed(list, OtherThan(s.sid), s.login);
    forall i | 0 <= i < |kept| ensures Before(kept[i], s) {
      assert kept[i] in kept;
    }
    assert Recorded(list, s)[|Recorded(list, s)| - 1] == s;
  }

  lemma RecordedMembers(list: seq<UserSession>, s: UserSession)
    ensures |Recorded(list, s)| <= 20 && Recorded(list, s)[|Recorded(list, s)| - 1] == s
    ensures forall x :: x in Recorded(list, s) ==> x == s || (x in list && x.sid != s.sid)
  {
    var longer := Filter(list, OtherThan(s.sid)) + [s];
    forall x | x in Recorded(list, s) ensures x in longer {
    }
  }

  /** Only what the cap asks for falls off, and it is the oldest: an entry of another
      session that is gone is no newer than any of the MAX_SESSIONS that stay. */
  lemma RecordedDropsOldest(list: seq<UserSession>, s: UserSession, x: UserSession)
    requires WellFormed(list, s.login) && x in list && x.sid != s.sid
    ensures var r := Recorded(list, s);
      x in r || (|r| == 20 && forall i :: 0 <= i < |r| ==> Before(x, r[i]))
  {
    var kept := Filter(list, OtherThan(s.sid));
    FilterKeepsOrder(list, OtherThan(s.sid), Before);
    var longer, r := kept + [s], Recorded(list, s);
    var i :| 0 <= i < |kept| && kept[i] == x;
    assert longer[i] == x;
    if |longer| > MAX_SESSIONS {
      var cut := |longer| - MAX_SESSIONS;
      forall j | 0 <= j < |r| && i < cut ensures Before(x, r[j]) {
        assert r[j] == longer[cut + j];
        assert cut + j < |kept| ==> Before(kept[i], kept[cut + j]);
        var k :| 0 <= k < |list| && list[k] == x;
        assert x.login <= s.login;
      }
      assert i >= cut ==> r[i - cut] == x;
    }
  }

  ghost predicate InListing(shown: seq<Listing>, x: UserSession) {
    exists i :: 0 <= i < |shown| && shown[i].session == x
  }

  lemma ShownMembers(live: seq<UserSession>, current: string)
    ensures forall x :: InListing(Shown(live, current), x) <==> x in live
  {
    var shown := Shown(live, current);
    forall x | x in live ensures InListing(shown, x) {
      var i :| 0 <= i < |live| && live[i] == x;
      assert shown[|live| - 1 - i].session == x;
    }
  }

  /** What the listing shows, is an index cleared down to, and what remains of it after
      the session, or all others, were revoked. */
  lemma FiltersMean(list: seq<UserSession>, data: map<string, int>, now: int, unreadable: set<string>, sid: string)
    ensures forall x :: x in Filter(list, LiveAt(data, now, unreadable)) <==>
      x in list && x.sid !in unreadable && x.sid in data && now < data[x.sid]
    ensures forall x :: x in Filter(list, OtherThan(sid)) <==> x in list && x.sid != sid
    ensures forall x :: x in Filter(list, Only(sid)) <==> x in list && x.sid == sid
    ensures forall failing :: Others(list, sid, failing) == (set i | 0 <= i < |list| && list[i].sid != sid && list[i].sid !in failing :: list[i].sid)
  {
    forall failing ensures Others(list, sid, failing) == (set i | 0 <= i < |list| && list[i].sid != sid && list[i].sid !in failing :: list[i].sid) {
      OthersMeans(list, sid, failing);
    }
  }

  lemma ShownAtMostOneCurrent(live: seq<UserSession>, current: string, now: int)
    requires WellFormed(live, now)
    ensures forall i, j :: 0 <= i < j < |live| ==>
      !(Shown(live, current)[i].current && Shown(live, current)[j].current) &&
      Shown(live, current)[j].session.login <= Shown(live, current)[i].session.login
  {
    var shown := Shown(live, current);
    forall i, j | 0 <= i < j < |shown|
      ensures !(shown[i].current && shown[j].current) && shown[j].session.login <= shown[i].session.login
    {
      assert Before(live[|live| - 1 - j], live[|live| - 1 - i]);
    }
  }

  class Inventory {
    var now: int
    var data: map<string, int>        // session id to the end of its idle timeout
    var index: map<string, Stored>    // user to session list

    ghost predicate Valid()
      reads this
    {
      forall u :: u in index ==> WellFormed(index[u].sessions, now)
    }

    ghost function Loaded(user: string): seq<UserSession>
      reads this
    {
      if user in index && now < index[user].until then index[user].sessions else []
    }

    constructor ()
      ensures Valid() && data == map[] && index == map[] && now == 0
    {
      now, data, index := 0, map[], map[];
    }

    method Load(user: string) returns (list: seq<UserSession>)
      ensures list == Loaded(user)
      ensures if user in index && now < index[user].until then list == index[user].sessions else list == []
    {
      list := if user in index && now < index[user].until then index[user].sessions else [];
    }

    /** Others are left alone; a failed save leaves everything alone. */
    method Save(user: string, list: seq<UserSession>, works: bool)
      requires Valid() && WellFormed(list, now)
      modifies this`index
      ensures Valid()
      ensures Loaded(user) == if works then list else old(Loaded(user))
      ensures works ==> if list == [] then user !in index else user in index && index[user] == Stored(list, now + 30 * 24 * 3600 * 1000)
      ensures forall u :: u != user ==> Loaded(u) == old(Loaded(u))
    {
      if !works {
      } else if |list| == 0 {
        index := index - {user};
      } else {
        index := index[user := Stored(list, now + INDEX_TTL)];
      }
    }

    method DeleteData(sid: string, works: bool) returns (ok: bool)
      modifies this`data
      ensures ok == works
      ensures data == if works then old(data) - {sid} else old(data)
    {
      ok := works;
      if works {
        data := data - {sid};
      }
    }

    /** Registers a login; the oldest entries fall off. */
    method Record(user: string, sid: string, device: string, saves: bool)
      requires Valid()
      modifies this`index
      ensures Valid()
      ensures Loaded(user) == if saves then Recorded(old(Loaded(user)), UserSession(sid, now, device)) else old(Loaded(user))
      ensures saves ==> user in index && index[user].until == now + INDEX_TTL
      ensures forall u :: u != user ==> Loaded(u) == old(Loaded(u))
    {
      var list := Load(user);
      var entry := UserSession(sid, now, device);
      RecordedWellFormed(list, entry);
      var buffer := ToArray(list);
      var k := Compact(buffer, OtherThan(sid));
      var kept := buffer[..k] + [entry];
      if |kept| > MAX_SESSIONS {
        kept := kept[|kept| - MAX_SESSIONS..];
      }
      assert kept == Recorded(list, entry) && kept != [];
      Save(user, kept, saves);
    }

    /** The live sessions, newest first; dead entries are dropped from the index
        and the index lives on while there is a live one. */
    method List(user: string, current: string, unreadable: set<string>, saves: bool) returns (shown: seq<Listing>)
      requires Valid()
      modifies this`index
      ensures Valid()
      ensures shown == Shown(Filter(old(Loaded(user)), LiveAt(data, now, unreadable)), current)
      ensures forall x :: InListing(shown, x) <==> x in old(Loaded(user)) && x.sid !in unreadable && x.sid in data && now < data[x.sid]
      ensures forall i :: 0 <= i < |shown| ==> (shown[i].current <==> shown[i].session.sid == current)
      ensures Loaded(user) == if saves then Filter(old(Loaded(user)), LiveAt(data, now, unreadable)) else old(Loaded(user))
      ensures saves && shown != [] ==> user in index && index[user].until == now + INDEX_TTL
      ensures forall u :: u != user ==> Loaded(u) == old(Loaded(u))
    {
      var list := Load(user);
      FilterWellFormed(list, LiveAt(data, now, unreadable), now);
      var live := KeepLive(list, unreadable);
      if |live| != |list| {
        Save(user, live, saves);
      } else {
        SameLengthSameList(list, LiveAt(data, now, unreadable));
        if |live| > 0 {
          Save(user, list, saves);
        }
      }
      shown := NewestFirst(live, current);
      ShownMembers(live, current);
    }

    method KeepLive(list: seq<UserSession>, unreadable: set<string>) returns (live: seq<UserSession>)
      ensures live == Filter(list, LiveAt(data, now, unreadable))
    {
      live := [];
      for i := 0 to |list|
        invariant live == Filter(list[..i], LiveAt(data, now, unreadable))
      {
        FilterStep(list, i, LiveAt(data, now, unreadable));
        if list[i].sid !in unreadable && list[i].sid in data && now < data[list[i].sid] {
          live := live + [list[i]];
        }
      }
      assert list[..|list|] == list;
    }

    /** Deletes a session that the user's index lists; any other id has no effect. */
    method Revoke(user: string, sid: string, deletes: bool, saves: bool) returns (found: bool)
      requires Valid()
      modifies this`index, this`data
      ensures Valid()
      ensures found <==> sid in Ids(old(Loaded(user)))
      ensures data == if found && deletes then old(data) - {sid} else old(data)
      ensures Loaded(user) == if saves then Filter(old(Loaded(user)), OtherThan(sid)) else old(Loaded(user))
      ensures forall u :: u != user ==> Loaded(u) == old(Loaded(u))
    {
      var list := Load(user);
      var buffer := ToArray(list);
      var k := Compact(buffer, OtherThan(sid));
      ShorterIffIndexed(list, sid);
      FilterWellFormed(list, OtherThan(sid), now);
      found := k != |list|;
      if found {
        var _ := DeleteData(sid, deletes);
        Save(user, buffer[..k], saves);
      }
    }

    /** Destroys every session but the current one and counts the deletions that
        worked, all but those in `failing`; the index keeps the current entry only. */
    method RevokeOthers(user: string, current: string, failing: set<string>, saves: bool) returns (revoked: nat)
      requires Valid()
      modifies this`index, this`data
      ensures Valid()
      ensures revoked == |Others(old(Loaded(user)), current, failing)|
      ensures data == old(data) - Others(old(Loaded(user)), current, failing)
      ensures Loaded(user) == if saves then Filter(old(Loaded(user)), Only(current)) else old(Loaded(user))
      ensures forall u :: u != user ==> Loaded(u) == old(Loaded(u))
    {
      var list := Load(user);
      FilterWellFormed(list, Only(current), now);
      var kept;
      kept, revoked := DeleteOthers(list, current, failing);
      Save(user, kept, saves);
    }

    method DeleteOthers(list: seq<UserSession>, current: string, failing: set<string>) returns (kept: seq<UserSession>, revoked: nat)
      requires WellFormed(list, now)
      modifies this`data
      ensures kept == Filter(list, Only(current))
      ensures revoked == |Others(list, current, failing)| && data == old(data) - Others(list, current, failing)
    {
      kept, revoked := [], 0;
      for i := 0 to |list|
        invariant kept == Filter(list[..i], Only(current))
        invariant Progress(data, old(data), revoked, list[..i], current, failing)
      {
        var entry := list[i];
        FilterStep(list, i, Only(current));
        ProgressStep(data, old(data), revoked, list, i, now, current, failing);
        if entry.sid == current {
          kept := kept + [entry];
        } else {
          var done := DeleteData(entry.sid, entry.sid !in failing);
          if done {
            revoked := revoked + 1;
          }
        }
      }
      assert list[..|list|] == list;
    }

    /** Removes an entry on logout, without touching session data. */
    method Drop(user: string, sid: string, saves: bool)
      requires Valid()
      modifies this`index
      ensures Valid()
      ensures Loaded(user) == if saves then Filter(old(Loaded(user)), OtherThan(sid)) else old(Loaded(user))
      ensures forall u :: u != user ==> Loaded(u) == old(Loaded(u))
    {
      var list := Load(user);
      var buffer := ToArray(list);
      var k := Compact(buffer, OtherThan(sid));
      FilterWellFormed(list, OtherThan(sid), now);
      Save(user, buffer[..k], saves);
    }
  }

  /** A filter that drops nothing changes nothing. */
  lemma SameLengthSameList(list: seq<UserSession>, keep: UserSession -> bool)
    requires |Filter(list, keep)| == |list|
    ensures Filter(list, keep) == list
  {
    FilterAll(list, keep);
  }

  lemma ShorterIffIndexed(list: seq<UserSession>, sid: string)
    ensures |Filter(list, OtherThan(sid))| != |list| <==> sid in Ids(list)
    ensures sid !in Ids(list) ==> Filter(list, OtherThan(sid)) == list
  {
    FilterAll(list, OtherThan(sid));
    if sid !in Ids(list) {
      forall s | s in list ensures OtherThan(sid)(s) {
        var i :| 0 <= i < |list| && list[i] == s;
        assert list[i].sid in Ids(list);
      }
    }
  }

  function Ids(list: seq<UserSession>): set<string> {
    set i | 0 <= i < |list| :: list[i].sid
  }

  /** The ids to delete, except those whose deletion fails. */
  function Others(list: seq<UserSession>, current: string, failing: set<string>): set<string> {
    if list == [] then {}
    else
      var rest, last := Others(list[..|list| - 1], current, failing), list[|list| - 1].sid;
      if last == current || last in failing then rest else rest + {last}
  }

  lemma {:induction false} OthersMeans(list: seq<UserSession>, current: string, failing: set<string>)
    ensures Others(list, current, failing) == Ids(list) - {current} - failing
  {
    if list != [] {
      OthersMeans(list[..|list| - 1], current, failing);
      assert list[..|list|] == list;
    }
  }

  lemma OthersStep(list: seq<UserSession>, i: nat, now: int, current: string, failing: set<string>)
    requires WellFormed(list, now) && i < |list|
    ensures var sid, before := list[i].sid, Others(list[..i], current, failing);
      && sid !in before
      && Others(list[..i + 1], current, failing) == if sid == current || sid in failing then before else before + {sid}
  {
    OthersMeans(list[..i], current, failing);
    assert list[..i + 1][..i] == list[..i];
  }

  /** The entries of the list are dealt with. */
  ghost predicate Progress(data: map<string, int>, before: map<string, int>, revoked: nat, list: seq<UserSession>, current: string, failing: set<string>) {
    data == before - Others(list, current, failing) && revoked == |Others(list, current, failing)|
  }

  lemma ProgressStep(data: map<string, int>, before: map<string, int>, revoked: nat, list: seq<UserSession>, i: nat, now: int, current: string, failing: set<string>)
    requires WellFormed(list, now) && i < |list| && Progress(data, before, revoked, list[..i], current, failing)
    ensures var sid := list[i].sid;
      if sid == current || sid in failing then Progress(data, before, revoked, list[..i + 1], current, failing)
      else Progress(data - {sid}, before, revoked + 1, list[..i + 1], current, failing)
  {
    OthersStep(list, i, now, current, failing);
    RemoveOneMore(before, Others(list[..i], current, failing), list[i].sid);
  }

  lemma RemoveOneMore<V>(m: map<string, V>, gone: set<string>, x: string)
    ensures (m - gone) - {x} == m - (gone + {x})
  {
  }

  method NewestFirst(live: seq<UserSession>, current: string) returns (shown: seq<Listing>)
    ensures shown == Shown(live, current)
  {
    var buffer := new Listing[|live|](i requires 0 <= i < |live| => Listing(live[i], live[i].sid == current));
    ReverseInPlace(buffer);
    shown := buffer[..];
  }
}
