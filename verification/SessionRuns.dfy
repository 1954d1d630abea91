/** Whole runs of logins, listings, revocations and logouts by any users, on the
    list operations of SessionIndex, with requests in flight that may write a
    session back. Session ids are fresh at every login. */
module SessionRuns {
  import opened Seqs
  import opened SessionIndex

  /** `owners` remembers which user a session id was issued to, `requests` which
      session each request in flight has loaded. */
  datatype World = World(
    now: int, data: map<string, int>, index: map<string, seq<UserSession>>, owners: map<string, string>, requests: map<nat, string>)

  const Init := World(0, map[], map[], map[], map[])

  datatype Op =
    | Login(user: string, sid: string, device: string, until: int, saved: bool)
    | List(user: string, unreadable: set<string>, saved: bool)
    | Revoke(user: string, sid: string, deleted: bool, saved: bool)
    | RevokeOthers(user: string, current: string, failed: set<string>, saved: bool)
    | Logout(user: string, sid: string, saved: bool)
    | Expire(sid: string)
    | ForgetIndex(user: string)
    | Tick(ms: nat)
    | Load(rid: nat, sid: string)
    | WriteBack(rid: nat, until: int)
    | End(rid: nat)

  /** An operation on behalf of a user, other than serving a request. */
  predicate HasUser(op: Op) {
    op.Login? || op.List? || op.Revoke? || op.RevokeOthers? || op.Logout?
  }

  function ListOf(w: World, user: string): seq<UserSession> {
    if user in w.index then w.index[user] else []
  }

  /** A login gets an id never used before; a logout presents the user's own. */
  predicate Enabled(w: World, op: Op) {
    match op
    case Login(user, sid, _, _, _) => sid !in w.owners
    case Logout(user, sid, _) => sid in w.owners && w.owners[sid] == user
    case Load(rid, sid) => rid !in w.requests && sid in w.data && w.now < w.data[sid]
    case WriteBack(rid, _) => rid in w.requests
    case _ => true
  }

  function Saved(w: World, user: string, list: seq<UserSession>, saved: bool): map<string, seq<UserSession>> {
    if saved then w.index[user := list] else w.index
  }

  function Apply(w: World, op: Op): World
    requires Enabled(w, op)
  {
    match op
    case Login(user, sid, device, until, saved) =>
      w.(data := w.data[sid := until], owners := w.owners[sid := user],
         index := Saved(w, user, Recorded(ListOf(w, user), UserSession(sid, w.now, device)), saved))
    case List(user, unreadable, saved) =>
      w.(index := Saved(w, user, Filter(ListOf(w, user), LiveAt(w.data, w.now, unreadable)), saved))
    case Revoke(user, sid, deleted, saved) =>
      if sid !in Ids(ListOf(w, user)) then w
      else w.(data := if deleted then w.data - {sid} else w.data, index := Saved(w, user, Filter(ListOf(w, user), OtherThan(sid)), saved))
    case RevokeOthers(user, current, failed, saved) =>
      w.(data := w.data - Others(ListOf(w, user), current, failed), index := Saved(w, user, Filter(ListOf(w, user), Only(current)), saved))
    case Logout(user, sid, saved) =>
      w.(data := w.data - {sid}, index := Saved(w, user, Filter(ListOf(w, user), OtherThan(sid)), saved))
    case Expire(sid) => w.(data := w.data - {sid})
    case ForgetIndex(user) => w.(index := w.index - {user})
    case Tick(ms) => w.(now := w.now + ms)
    case Load(rid, sid) => w.(requests := w.requests[rid := sid])
    case WriteBack(rid, until) => w.(data := w.data[w.requests[rid] := until])
    case End(rid) => w.(requests := w.requests - {rid})
  }

  predicate Run(worlds: seq<World>, ops: seq<Op>) {
    && |worlds| == |ops| + 1
    && worlds[0] == Init
    && forall i :: 0 <= i < |ops| ==> Enabled(worlds[i], ops[i]) && worlds[i + 1] == Apply(worlds[i], ops[i])
  }

  ghost predicate Owned(list: seq<UserSession>, user: string, owners: map<string, string>) {
    forall i :: 0 <= i < |list| ==> list[i].sid in owners && owners[list[i].sid] == user
  }

  ghost predicate Inv(w: World) {
    forall u :: u in w.index ==> WellFormed(w.index[u], w.now) && Owned(w.index[u], u, w.owners)
  }

  lemma FilterOwned(list: seq<UserSession>, keep: UserSession -> bool, user: string, owners: map<string, string>)
    requires Owned(list, user, owners)
    ensures Owned(Filter(list, keep), user, owners)
  {
    forall i | 0 <= i < |Filter(list, keep)|
      ensures Filter(list, keep)[i].sid in owners && owners[Filter(list, keep)[i].sid] == user
    {
      assert Filter(list, keep)[i] in list;
    }
  }

  lemma FilterFits(list: seq<UserSession>, keep: UserSession -> bool, user: string, w: World)
    requires WellFormed(list, w.now) && Owned(list, user, w.owners)
    ensures WellFormed(Filter(list, keep), w.now) && Owned(Filter(list, keep), user, w.owners)
  {
    FilterWellFormed(list, keep, w.now);
    FilterOwned(list, keep, user, w.owners);
  }

  lemma LoginFits(w: World, op: Op)
    requires Inv(w) && Enabled(w, op) && op.Login?
    ensures var w' := Apply(w, op); op.user in w'.index ==> WellFormed(w'.index[op.user], w'.now) && Owned(w'.index[op.user], op.user, w'.owners)
  {
    var list := ListOf(w, op.user);
    FilterFits(list, OtherThan(op.sid), op.user, w);
    RecordedWellFormed(list, UserSession(op.sid, w.now, op.device));
  }

  /** The list an operation saves for its user. */
  lemma SavedListFits(w: World, op: Op)
    requires Inv(w) && Enabled(w, op) && HasUser(op)
    ensures var w' := Apply(w, op); op.user in w'.index ==> WellFormed(w'.index[op.user], w'.now) && Owned(w'.index[op.user], op.user, w'.owners)
  {
    var list := ListOf(w, op.user);
    match op {
      case Login(_, _, _, _, _) => LoginFits(w, op);
      case List(user, unreadable, _) => FilterFits(list, LiveAt(w.data, w.now, unreadable), user, w);
      case Revoke(user, sid, _, _) => FilterFits(list, OtherThan(sid), user, w);
      case RevokeOthers(user, current, _, _) => FilterFits(list, Only(current), user, w);
      case Logout(user, sid, _) => FilterFits(list, OtherThan(sid), user, w);
    }
  }

  lemma StepKeepsInv(w: World, op: Op)
    requires Inv(w) && Enabled(w, op)
    ensures Inv(Apply(w, op))
  {
    if HasUser(op) {
      SavedListFits(w, op);
    }
  }

  /** After any sequence of operations, failed saves and deletions included, every
      user's index has distinct ids, oldest first, at most MAX_SESSIONS of them,
      and lists only that user's own sessions. */
  lemma {:induction false} IndexAlwaysWellFormed(worlds: seq<World>, ops: seq<Op>, i: nat)
    requires Run(worlds, ops) && i <= |ops|
    ensures forall u :: u in worlds[i].index ==>
      WellFormed(worlds[i].index[u], worlds[i].now) && Owned(worlds[i].index[u], u, worlds[i].owners)
  {
    if i > 0 {
      IndexAlwaysWellFormed(worlds, ops, i - 1);
      StepKeepsInv(worlds[i - 1], ops[i - 1]);
    }
  }

  predicate ByUser(op: Op, user: string) {
    HasUser(op) && op.user == user
  }

  /** In every run, what a user does leaves the indexes of the others alone and
      deletes no session that belongs to somebody else. */
  lemma {:induction false} OthersUntouched(worlds: seq<World>, ops: seq<Op>, i: nat, user: string)
    requires Run(worlds, ops) && i < |ops| && ByUser(ops[i], user)
    ensures forall v :: v != user ==> ListOf(worlds[i + 1], v) == ListOf(worlds[i], v)
    ensures forall x :: x in worlds[i].owners && worlds[i].owners[x] != user && x in worlds[i].data ==>
      x in worlds[i + 1].data && worlds[i + 1].data[x] == worlds[i].data[x]
  {
    IndexAlwaysWellFormed(worlds, ops, i);
    var list := ListOf(worlds[i], user);
    forall x | x in Ids(list) ensures x in worlds[i].owners && worlds[i].owners[x] == user {
    }
    if ops[i].RevokeOthers? {
      OthersMeans(list, ops[i].current, ops[i].failed);
    }
  }

  /** With working deletions, signing out everywhere else leaves no indexed
      session of the user alive but the current one, and the index lists only that. */
  lemma RevokeOthersLeavesCurrent(w: World, user: string, current: string)
    requires Inv(w)
    ensures var w' := Apply(w, RevokeOthers(user, current, {}, true));
      && (forall i :: 0 <= i < |ListOf(w, user)| && ListOf(w, user)[i].sid != current ==> ListOf(w, user)[i].sid !in w'.data)
      && (forall s :: s in ListOf(w', user) <==> s in ListOf(w, user) && s.sid == current)
      && WellFormed(ListOf(w', user), w'.now)
      && (current in w.data ==> current in w'.data && w'.data[current] == w.data[current])
  {
    var list := ListOf(w, user);
    var w' := Apply(w, RevokeOthers(user, current, {}, true));
    OthersMeans(list, current, {});
    forall i | 0 <= i < |list| && list[i].sid != current ensures list[i].sid !in w'.data {
      assert list[i].sid in Ids(list);
    }
    FilterWellFormed(list, Only(current), w.now);
  }

  /** Meanwhile time passes, sessions and indexes run out, and requests load sessions that
      are alive, write them back and end. */
  lemma MeanwhileMeans(w: World, ms: nat, rid: nat, sid: string, user: string, until: int)
    ensures Apply(w, Tick(ms)) == w.(now := w.now + ms)
    ensures Apply(w, Expire(sid)) == w.(data := w.data - {sid}) && Apply(w, ForgetIndex(user)) == w.(index := w.index - {user})
    ensures Apply(w, End(rid)) == w.(requests := w.requests - {rid})
    ensures rid !in w.requests && sid in w.data && w.now < w.data[sid] ==>
      Enabled(w, Load(rid, sid)) && Apply(w, Load(rid, sid)) == w.(requests := w.requests[rid := sid])
    ensures rid in w.requests ==>
      Enabled(w, WriteBack(rid, until)) && Apply(w, WriteBack(rid, until)) == w.(data := w.data[w.requests[rid] := until])
  {
  }

  /** A login stores its session and puts it at the end of its user's list, as it is. */
  lemma LoginMeans(w: World, user: string, sid: string, device: string, until: int, saved: bool)
    requires Enabled(w, Login(user, sid, device, until, saved))
    ensures var w', list' := Apply(w, Login(user, sid, device, until, saved)), ListOf(Apply(w, Login(user, sid, device, until, saved)), user);
      && w'.data == w.data[sid := until] && w'.owners == w.owners[sid := user]
      && (if saved then list' != [] && list'[|list'| - 1] == UserSession(sid, w.now, device) else list' == ListOf(w, user))
      && (forall x :: x in list' ==> x in ListOf(w, user) || x == UserSession(sid, w.now, device))
      && (forall v :: v != user ==> ListOf(w', v) == ListOf(w, v))
  {
  }

  /** A listing drops the dead entries from the user's list and changes nothing else. */
  lemma ListMeans(w: World, user: string, unreadable: set<string>, saved: bool)
    ensures var w' := Apply(w, List(user, unreadable, saved));
      && w'.data == w.data
      && (forall x :: x in ListOf(w', user) <==>
            x in ListOf(w, user) && (saved ==> x.sid !in unreadable && x.sid in w.data && w.now < w.data[x.sid]))
      && (forall v :: v != user ==> ListOf(w', v) == ListOf(w, v))
  {
  }

  /** A logout ends exactly the session it presents and takes it off its user's list, if
      that can be saved. */
  lemma LogoutMeans(w: World, user: string, sid: string, saved: bool)
    requires Enabled(w, Logout(user, sid, saved))
    ensures var w' := Apply(w, Logout(user, sid, saved));
      && w'.data == w.data - {sid} && w'.owners == w.owners && w'.requests == w.requests
      && (forall x :: x in ListOf(w', user) <==> x in ListOf(w, user) && (saved ==> x.sid != sid))
      && (forall v :: v != user ==> ListOf(w', v) == ListOf(w, v))
  {
  }

  /** A revocation ends a session that the user's index lists, and no other. */
  lemma RevokeMeans(w: World, user: string, sid: string, deleted: bool, saved: bool)
    ensures var w' := Apply(w, Revoke(user, sid, deleted, saved));
      var indexed := exists i :: 0 <= i < |ListOf(w, user)| && ListOf(w, user)[i].sid == sid;
      && w'.data == (if indexed && deleted then w.data - {sid} else w.data)
      && (forall x :: x in ListOf(w', user) <==> x in ListOf(w, user) && (saved ==> x.sid != sid))
      && (forall v :: v != user ==> ListOf(w', v) == ListOf(w, v))
  {
    var list := ListOf(w, user);
    assert sid in Ids(list) <==> exists i :: 0 <= i < |list| && list[i].sid == sid;
  }

  // ---- Does a revoked session stay gone? ----

  /** The worlds a run goes through from `w` on. */
  predicate Continues(w: World, worlds: seq<World>, ops: seq<Op>) {
    && |worlds| == |ops| + 1
    && worlds[0] == w
    && forall i :: 0 <= i < |ops| ==> Enabled(worlds[i], ops[i]) && worlds[i + 1] == Apply(worlds[i], ops[i])
  }

  /** The session data is gone and nothing brings it back. */
  ghost predicate GoneForGood(w: World, sid: string) {
    forall worlds: seq<World>, ops: seq<Op> :: Continues(w, worlds, ops) ==> sid !in worlds[|ops|].data
  }

  predicate InFlight(w: World, sid: string) {
    exists rid :: rid in w.requests && w.requests[rid] == sid
  }

  /** Whatever deleted its data, a session stays gone if and only if no request that
      loaded it is still in flight. */
  lemma GoneForGoodIff(w: World, sid: string)
    requires sid in w.owners && sid !in w.data
    ensures GoneForGood(w, sid) <==> !InFlight(w, sid)
  {
    if InFlight(w, sid) {
      var rid :| rid in w.requests && w.requests[rid] == sid;
      var op := WriteBack(rid, w.now + 1);
      assert Continues(w, [w, Apply(w, op)], [op]);
    } else {
      forall worlds: seq<World>, ops: seq<Op> | Continues(w, worlds, ops) ensures sid !in worlds[|ops|].data {
        StaysGone(w, worlds, ops, |ops|, sid);
      }
    }
  }

  lemma {:induction false} StaysGone(w: World, worlds: seq<World>, ops: seq<Op>, i: nat, sid: string)
    requires Continues(w, worlds, ops) && i <= |ops|
    requires sid in w.owners && sid !in w.data && !InFlight(w, sid)
    ensures sid in worlds[i].owners && sid !in worlds[i].data && !InFlight(worlds[i], sid)
  {
    if i > 0 {
      StaysGone(w, worlds, ops, i - 1, sid);
    }
  }

  /** Once out of its owner's index, for instance by a saved revocation, a session is
      never listed again; so one that was written back is alive without being shown. */
  lemma {:induction false} StaysUnlisted(w: World, worlds: seq<World>, ops: seq<Op>, i: nat, user: string, sid: string)
    requires Continues(w, worlds, ops) && i <= |ops| && sid in w.owners && sid !in Ids(ListOf(w, user))
    ensures sid in worlds[i].owners && sid !in Ids(ListOf(worlds[i], user))
  {
    if i > 0 {
      StaysUnlisted(w, worlds, ops, i - 1, user, sid);
      StepStaysUnlisted(worlds[i - 1], ops[i - 1], user, sid);
    }
  }

  lemma StepStaysUnlisted(w: World, op: Op, user: string, sid: string)
    requires Enabled(w, op) && sid in w.owners && sid !in Ids(ListOf(w, user))
    ensures sid in Apply(w, op).owners && sid !in Ids(ListOf(Apply(w, op), user))
  {
    var before, after := ListOf(w, user), ListOf(Apply(w, op), user);
    forall i | 0 <= i < |after| ensures after[i].sid != sid {
      if after[i] in before {
        var j :| 0 <= j < |before| && before[j] == after[i];
        assert before[j].sid in Ids(before);
      } else {
        assert after[i] in after;
      }
    }
  }

  /** A run in which a revoked session is alive again, and in no index. */
  lemma RevokedComesBack() returns (worlds: seq<World>, ops: seq<Op>)
    ensures Run(worlds, ops) && |ops| == 4 && ops[2] == Revoke("ann", "s", true, true)
    ensures var w := worlds[4]; "s" in w.data && w.now < w.data["s"] && Ids(ListOf(w, "ann")) == {}
  {
    var login, revoke := Login("ann", "s", "", 10, true), Revoke("ann", "s", true, true);
    var w1 := Apply(Init, login);
    assert ListOf(w1, "ann") == [UserSession("s", 0, "")] by {
      assert Filter<UserSession>([], OtherThan("s")) == [];
    }
    var w2 := Apply(w1, Load(0, "s"));
    assert ListOf(w2, "ann")[0].sid in Ids(ListOf(w2, "ann"));
    var w3 := Apply(w2, revoke);
    var w4 := Apply(w3, WriteBack(0, 20));
    worlds, ops := [Init, w1, w2, w3, w4], [login, Load(0, "s"), revoke, WriteBack(0, 20)];
    assert forall s :: s in ListOf(w4, "ann") ==> s in ListOf(w2, "ann") && s.sid != "s";
    assert ListOf(w4, "ann") == [];
  }
}
