/** Revocation of OAuth consents that a user's groups no longer admit. Hydra is
    foreign: it lists a user's consents in pages linked by tokens and may refuse
    any call. `fold` is the case folding that group names are compared under. */
module Consents {
  import opened Wrappers

  datatype Policy = Policy(clientID: string, groups: seq<string>)

  /** `policies` is None when the configuration does not parse. */
  datatype Config = Config(policies: Option<seq<Policy>>, defaultDeny: bool, fold: string -> string)

  datatype User = User(username: string, groups: seq<string>, indirectGroups: seq<string>)

  function MemberOf(u: User): seq<string> {
    u.groups + u.indirectGroups
  }

  predicate SharesGroup(fold: string -> string, wants: seq<string>, haves: seq<string>) {
    exists i, j :: 0 <= i < |wants| && 0 <= j < |haves| && fold(wants[i]) == fold(haves[j])
  }

  /** The search through the configured entries, in order. */
  predicate Admits(policies: seq<Policy>, cfg: Config, clientID: string, u: User) {
    if policies == [] then !cfg.defaultDeny
    else if policies[0].clientID == "" then false
    else if policies[0].clientID != clientID then Admits(policies[1..], cfg, clientID, u)
    else SharesGroup(cfg.fold, policies[0].groups, MemberOf(u))
  }

  predicate ClientAllowed(cfg: Config, clientID: string, u: User) {
    cfg.policies.Some? && Admits(cfg.policies.value, cfg, clientID, u)
  }

  /** Every entry names a client. */
  ghost predicate ValidConfig(cfg: Config) {
    cfg.policies.Some? && forall i :: 0 <= i < |cfg.policies.value| ==> cfg.policies.value[i].clientID != ""
  }

  ghost predicate FirstEntry(policies: seq<Policy>, i: nat, clientID: string) {
    i < |policies| && policies[i].clientID == clientID && forall j :: 0 <= j < i ==> policies[j].clientID != clientID
  }

  /** In a valid configuration the first entry of a client decides by group, and a
      client without an entry is open unless everything else is denied. */
  lemma {:induction false} AdmitsMeans(policies: seq<Policy>, cfg: Config, clientID: string, u: User)
    requires forall i :: 0 <= i < |policies| ==> policies[i].clientID != ""
    ensures forall i: nat :: FirstEntry(policies, i, clientID) ==>
      (Admits(policies, cfg, clientID, u) <==> SharesGroup(cfg.fold, policies[i].groups, MemberOf(u)))
    ensures (forall i :: 0 <= i < |policies| ==> policies[i].clientID != clientID) ==>
      (Admits(policies, cfg, clientID, u) <==> !cfg.defaultDeny)
  {
    if policies != [] && policies[0].clientID != clientID {
      AdmitsMeans(policies[1..], cfg, clientID, u);
      forall i: nat | FirstEntry(policies, i, clientID)
        ensures Admits(policies, cfg, clientID, u) <==> SharesGroup(cfg.fold, policies[i].groups, MemberOf(u))
      {
        assert FirstEntry(policies[1..], i - 1, clientID);
      }
      assert forall i :: 0 <= i < |policies[1..]| ==> policies[1..][i] == policies[i + 1];
    }
  }

  /** The user is in a group of that name, directly or not. */
  ghost predicate InGroup(cfg: Config, u: User, group: string) {
    || (exists k :: 0 <= k < |u.groups| && cfg.fold(u.groups[k]) == cfg.fold(group))
    || (exists k :: 0 <= k < |u.indirectGroups| && cfg.fold(u.indirectGroups[k]) == cfg.fold(group))
  }

  /** The entry at which the search for a client ends: its own, or one without a name. */
  ghost predicate Decides(policies: seq<Policy>, i: nat, clientID: string) {
    && i < |policies| && (policies[i].clientID == clientID || policies[i].clientID == "")
    && forall j :: 0 <= j < i ==> policies[j].clientID != clientID && policies[j].clientID != ""
  }

  /** Whose consents a sweep leaves alone: the configuration parses, and either the
      deciding entry names the client and one of the user's groups, or there is no such
      entry and clients without one are not denied. */
  ghost predicate Entitled(cfg: Config, clientID: string, u: User) {
    && cfg.policies.Some?
    && var policies := cfg.policies.value;
      if exists i: nat :: Decides(policies, i, clientID) then
        exists i: nat, j: nat :: Decides(policies, i, clientID) && policies[i].clientID != "" &&
          j < |policies[i].groups| && InGroup(cfg, u, policies[i].groups[j])
      else !cfg.defaultDeny
  }

  lemma SharesGroupIff(cfg: Config, wants: seq<string>, u: User)
    ensures SharesGroup(cfg.fold, wants, MemberOf(u)) <==> exists j: nat :: j < |wants| && InGroup(cfg, u, wants[j])
  {
    if exists j: nat :: j < |wants| && InGroup(cfg, u, wants[j]) {
      var j: nat :| j < |wants| && InGroup(cfg, u, wants[j]);
      if k :| 0 <= k < |u.groups| && cfg.fold(u.groups[k]) == cfg.fold(wants[j]) {
        assert MemberOf(u)[k] == u.groups[k];
      } else {
        var k :| 0 <= k < |u.indirectGroups| && cfg.fold(u.indirectGroups[k]) == cfg.fold(wants[j]);
        assert MemberOf(u)[|u.groups| + k] == u.indirectGroups[k];
      }
    }
  }

  lemma {:induction false} SearchDecides(policies: seq<Policy>, cfg: Config, clientID: string, u: User) returns (i: nat)
    ensures i <= |policies| && (i < |policies| ==> Decides(policies, i, clientID))
    ensures i == |policies| ==> forall k: nat :: !Decides(policies, k, clientID)
    ensures Admits(policies, cfg, clientID, u) <==>
      if i == |policies| then !cfg.defaultDeny
      else policies[i].clientID != "" && SharesGroup(cfg.fold, policies[i].groups, MemberOf(u))
  {
    i := 0;
    if policies != [] && policies[0].clientID != "" && policies[0].clientID != clientID {
      i := SearchDecides(policies[1..], cfg, clientID, u);
      i := i + 1;
      forall k: nat | Decides(policies, k, clientID) ensures Decides(policies[1..], k - 1, clientID) {
      }
    }
  }

  /** The search allows exactly the clients the user is entitled to, whatever the
      configuration. */
  lemma AllowedIffEntitled(cfg: Config, clientID: string, u: User)
    ensures ClientAllowed(cfg, clientID, u) <==> Entitled(cfg, clientID, u)
  {
    if cfg.policies.Some? {
      var policies := cfg.policies.value;
      var i := SearchDecides(policies, cfg, clientID, u);
      if i < |policies| {
        SharesGroupIff(cfg, policies[i].groups, u);
        forall k: nat | Decides(policies, k, clientID) ensures k == i {
        }
      }
    }
  }

  /** The law of the configuration: one that does not parse refuses everybody; in a valid
      one the first entry of a client admits exactly the users in one of its groups, and
      a client without an entry is open unless everything else is denied. */
  lemma ClientAllowedMeans(cfg: Config, clientID: string, u: User)
    ensures cfg.policies.None? ==> !ClientAllowed(cfg, clientID, u)
    ensures ValidConfig(cfg) ==> forall i: nat :: FirstEntry(cfg.policies.value, i, clientID) ==>
      (ClientAllowed(cfg, clientID, u) <==>
        exists j: nat :: j < |cfg.policies.value[i].groups| && InGroup(cfg, u, cfg.policies.value[i].groups[j]))
    ensures ValidConfig(cfg) && (forall i :: 0 <= i < |cfg.policies.value| ==> cfg.policies.value[i].clientID != clientID) ==>
      (ClientAllowed(cfg, clientID, u) <==> !cfg.defaultDeny)
  {
    if ValidConfig(cfg) {
      AdmitsMeans(cfg.policies.value, cfg, clientID, u);
      forall i: nat | FirstEntry(cfg.policies.value, i, clientID)
        ensures ClientAllowed(cfg, clientID, u) <==>
          exists j: nat :: j < |cfg.policies.value[i].groups| && InGroup(cfg, u, cfg.policies.value[i].groups[j])
      {
        SharesGroupIff(cfg, cfg.policies.value[i].groups, u);
      }
    }
  }

  /** The sweep runs only under a configuration that parses, names its clients and
      restricts something. */
  method ClientGroupsEnforced(cfg: Config) returns (enforced: bool)
    ensures enforced <==> ValidConfig(cfg) && (|cfg.policies.value| > 0 || cfg.defaultDeny)
  {
    if cfg.policies.None? {
      return false;
    }
    for i := 0 to |cfg.policies.value|
      invariant forall j :: 0 <= j < i ==> cfg.policies.value[j].clientID != ""
    {
      if cfg.policies.value[i].clientID == "" {
        return false;
      }
    }
    enforced := |cfg.policies.value| > 0 || cfg.defaultDeny;
  }

  // ---- Hydra ----

  /** A consent session; the client of some is not reported. */
  datatype Consent = Consent(id: nat, username: string, client: Option<string>)

  datatype Page = Page(sessions: seq<Consent>, next: string)

  /** The pages of one listing: `chain` are the tokens in the order they lead to
      each other, the first page being fetched without one. */
  datatype Listing = Listing(chain: seq<string>, fetch: string -> Page)

  ghost predicate Leads(l: Listing, i: nat)
    requires i + 1 < |l.chain|
  {
    l.fetch(l.chain[i]).next == l.chain[i + 1] && l.chain[i + 1] != "" && l.chain[i + 1] != l.chain[i]
  }

  ghost predicate ValidListing(l: Listing) {
    && |l.chain| > 0 && l.chain[0] == ""
    && (forall i :: 0 <= i < |l.chain| - 1 ==> Leads(l, i))
    && (var last := l.chain[|l.chain| - 1]; l.fetch(last).next == "" || l.fetch(last).next == last)
  }

  ghost predicate OnPages(l: Listing, n: nat, c: Consent)
    requires n <= |l.chain|
  {
    exists i :: 0 <= i < n && c in l.fetch(l.chain[i]).sessions
  }

  ghost predicate Names(sessions: seq<Consent>, n: nat, id: string)
    requires n <= |sessions|
  {
    exists j :: 0 <= j < n && sessions[j].client == Some(id)
  }

  ghost predicate PagesName(l: Listing, n: nat, id: string)
    requires n <= |l.chain|
  {
    exists i :: 0 <= i < n && Names(l.fetch(l.chain[i]).sessions, |l.fetch(l.chain[i]).sessions|, id)
  }

  /** What goes wrong while one user is handled: page requests that fail, by token,
      and clients whose revocation fails. */
  datatype Outage = Outage(pages: string -> bool, revocations: set<string>)

  ghost predicate NoOutage(o: Outage) {
    o.revocations == {} && forall token :: !o.pages(token)
  }

  ghost predicate Distinct<T>(s: seq<T>) {
    forall i, j :: 0 <= i < j < |s| ==> s[i] != s[j]
  }

  method AddClients(ids: seq<string>, sessions: seq<Consent>) returns (more: seq<string>)
    requires Distinct(ids)
    ensures Distinct(more)
    ensures forall id :: id in more <==> id in ids || Names(sessions, |sessions|, id)
  {
    more := ids;
    for j := 0 to |sessions|
      invariant Distinct(more)
      invariant forall id :: id in more <==> id in ids || Names(sessions, j, id)
    {
      ghost var before := more;
      if sessions[j].client.Some? && sessions[j].client.value !in more {
        more := more + [sessions[j].client.value];
      }
      forall id ensures id in more <==> id in ids || Names(sessions, j + 1, id) {
        assert Names(sessions, j + 1, id) <==> Names(sessions, j, id) || sessions[j].client == Some(id);
      }
    }
  }

  /** Collects every client on the pages once and terminates for every finite
      chain of tokens; None exactly when a page request fails. */
  method ConsentClientIDs(l: Listing, fails: string -> bool) returns (r: Option<seq<string>>)
    requires ValidListing(l)
    ensures r.None? <==> exists i :: 0 <= i < |l.chain| && fails(l.chain[i])
    ensures r.Some? ==> Distinct(r.value)
    ensures r.Some? ==> forall id :: id in r.value <==> PagesName(l, |l.chain|, id)
  {
    var ids, token := [], "";
    ghost var n := 0;
    while true
      invariant n < |l.chain| && token == l.chain[n]
      invariant forall i :: 0 <= i < n ==> !fails(l.chain[i])
      invariant Distinct(ids)
      invariant forall id :: id in ids <==> PagesName(l, n, id)
      decreases |l.chain| - n
    {
      if fails(token) {
        return None;
      }
      var page := l.fetch(token);
      ghost var before := ids;
      ids := AddClients(ids, page.sessions);
      forall id ensures id in ids <==> PagesName(l, n + 1, id) {
        assert PagesName(l, n + 1, id) <==> PagesName(l, n, id) || Names(page.sessions, |page.sessions|, id);
      }
      assert n + 1 < |l.chain| ==> Leads(l, n);
      if page.next == "" || page.next == token {
        return Some(ids);
      }
      token := page.next;
      n := n + 1;
    }
  }

  // ---- The sweep ----

  ghost predicate Refused(cfg: Config, u: User, c: Consent) {
    c.username == u.username && c.client.Some? && !Entitled(cfg, c.client.value, u)
  }

  /** Consents that the groups of one of the users refuse. */
  ghost predicate RefusedBySome(cfg: Config, users: seq<User>, c: Consent) {
    exists i :: 0 <= i < |users| && Refused(cfg, users[i], c)
  }

  function Pair(c: Consent): (string, string)
    requires c.client.Some?
  {
    (c.username, c.client.value)
  }

  ghost predicate DistinctUsers(users: seq<User>) {
    forall i, j :: 0 <= i < j < |users| ==> users[i].username != users[j].username
  }

  /** What Hydra promises about a listing: it is a finite chain of pages that show
      exactly the user's consents. */
  ghost predicate Shows(l: Listing, consents: set<Consent>, username: string) {
    && ValidListing(l)
    && forall c :: OnPages(l, |l.chain|, c) <==> c in consents && c.username == username
  }

  /** Hydra's answer to a listing, in every state of its store. */
  type Pager = (set<Consent>, string) -> Listing

  ghost predicate Faithful(pager: Pager) {
    forall consents, username :: Shows(pager(consents, username), consents, username)
  }

  ghost function Held(consents: set<Consent>, username: string, id: string): set<Consent> {
    set c | c in consents && c.username == username && c.client == Some(id)
  }

  lemma ListedIffHeld(l: Listing, consents: set<Consent>, username: string, id: string)
    requires Shows(l, consents, username)
    ensures PagesName(l, |l.chain|, id) <==> Held(consents, username, id) != {}
  {
    if PagesName(l, |l.chain|, id) {
      var i :| 0 <= i < |l.chain| && Names(l.fetch(l.chain[i]).sessions, |l.fetch(l.chain[i]).sessions|, id);
      var sessions := l.fetch(l.chain[i]).sessions;
      var j :| 0 <= j < |sessions| && sessions[j].client == Some(id);
      assert OnPages(l, |l.chain|, sessions[j]);
      assert sessions[j] in Held(consents, username, id);
    }
    if Held(consents, username, id) != {} {
      var c :| c in Held(consents, username, id);
      assert OnPages(l, |l.chain|, c);
      var i :| 0 <= i < |l.chain| && c in l.fetch(l.chain[i]).sessions;
      var j :| 0 <= j < |l.fetch(l.chain[i]).sessions| && l.fetch(l.chain[i]).sessions[j] == c;
      assert Names(l.fetch(l.chain[i]).sessions, |l.fetch(l.chain[i]).sessions|, id);
    }
  }

  class Hydra {
    const cfg: Config
    const pager: Pager
    var consents: set<Consent>

    constructor (cfg: Config, pager: Pager, consents: set<Consent>)
      ensures this.cfg == cfg && this.pager == pager && this.consents == consents
    {
      this.cfg, this.pager, this.consents := cfg, pager, consents;
    }

    /** Revokes all consents of one client, or fails. */
    method Revoke(username: string, id: string, works: bool) returns (ok: bool)
      modifies this`consents
      ensures ok == works
      ensures consents == if works then old(consents) - Held(old(consents), username, id) else old(consents)
    {
      ok := works;
      if works {
        consents := consents - set c | c in consents && c.username == username && c.client == Some(id);
      }
    }

    /** One user. Only refused consents ever go; without errors all of them do,
        and the count is the number of clients concerned. */
    method RevokeDisallowed(u: User, o: Outage) returns (revoked: nat, clean: bool, ghost gone: set<string>)
      requires Faithful(pager)
      modifies this`consents
      ensures revoked == |gone|
      ensures forall id :: id in gone ==> Held(old(consents), u.username, id) != {} && !Entitled(cfg, id, u)
      ensures consents == set c | c in old(consents) && !(c.username == u.username && c.client.Some? && c.client.value in gone)
      ensures clean ==> forall id :: id in gone <==> Held(old(consents), u.username, id) != {} && !Entitled(cfg, id, u)
      ensures NoOutage(o) ==> clean
    {
      revoked, clean, gone := 0, true, {};
      var l := pager(consents, u.username);
      var listed := ConsentClientIDs(l, o.pages);
      if listed.None? {
        return 0, false, {};
      }
      var ids := listed.value;
      forall id ensures id in ids <==> Held(consents, u.username, id) != {} {
        ListedIffHeld(l, consents, u.username, id);
      }
      for i := 0 to |ids|
        invariant revoked == |gone|
        invariant forall id :: id in gone ==> id in ids[..i] && !Entitled(cfg, id, u)
        invariant consents == set c | c in old(consents) && !(c.username == u.username && c.client.Some? && c.client.value in gone)
        invariant NoOutage(o) ==> clean
        invariant clean ==> forall id :: id in ids[..i] && !Entitled(cfg, id, u) ==> id in gone
      {
        assert ids[..i + 1] == ids[..i] + [ids[i]];
        assert ids[i] !in ids[..i];
        AllowedIffEntitled(cfg, ids[i], u);
        if ClientAllowed(cfg, ids[i], u) {
          continue;
        }
        var ok := Revoke(u.username, ids[i], ids[i] !in o.revocations);
        if !ok {
          clean := false;
          continue;
        }
        gone, revoked := gone + {ids[i]}, revoked + 1;
      }
      assert ids[..|ids|] == ids;
    }

    /** Every user in turn. Whatever fails, nothing admitted is touched; without
        errors every refused consent is gone and the count is the number of
        distinct refused (user, client) pairs, which it never exceeds. */
    method Sweep(users: seq<User>, outages: string -> Outage) returns (revoked: nat, clean: bool)
      requires Faithful(pager) && DistinctUsers(users)
      modifies this`consents
      ensures consents <= old(consents)
      ensures forall c :: c in old(consents) - consents ==> RefusedBySome(cfg, users, c)
      ensures clean ==> forall c :: c in consents ==> !RefusedBySome(cfg, users, c)
      ensures revoked <= |RefusedPairs(cfg, users, old(consents))|
      ensures clean ==> revoked == |RefusedPairs(cfg, users, old(consents))|
      ensures (forall username :: NoOutage(outages(username))) ==> clean
    {
      revoked, clean := 0, true;
      ghost var pairs: set<(string, string)> := {};
      for n := 0 to |users|
        invariant (forall username :: NoOutage(outages(username))) ==> clean
        invariant Swept(cfg, users[..n], old(consents), pairs, consents, revoked, clean)
      {
        ghost var gone, before := {}, consents;
        var k, ok;
        k, ok, gone := RevokeDisallowed(users[n], outages(users[n].username));
        SweptStep(cfg, users, n, old(consents), pairs, before, consents, gone, revoked, clean, ok);
        pairs, revoked, clean := pairs + PairsOf(users[n].username, gone), revoked + k, clean && ok;
      }
      assert users[..|users|] == users;
      SweepOutcome(cfg, users, old(consents), pairs, clean);
    }

    /** After an error-free sweep a second one, whatever fails in it, revokes nothing
        and leaves everything as it found it. */
    method SweepTwice(users: seq<User>, first: string -> Outage, second: string -> Outage)
      returns (revoked: nat, clean: bool, again: nat, ghost between: set<Consent>)
      requires Faithful(pager) && DistinctUsers(users)
      modifies this`consents
      ensures between <= old(consents)
      ensures clean ==> revoked == |RefusedPairs(cfg, users, old(consents))| && again == 0 && consents == between
      ensures clean ==> forall c :: c in between <==> c in old(consents) && !RefusedBySome(cfg, users, c)
      ensures (forall username :: NoOutage(first(username))) ==> clean
    {
      revoked, clean := Sweep(users, first);
      between := consents;
      var cleanAgain;
      again, cleanAgain := Sweep(users, second);
      if clean {
        assert RefusedPairs(cfg, users, between) == {};
      }
    }
  }

  ghost function RefusedPairs(cfg: Config, users: seq<User>, consents: set<Consent>): set<(string, string)> {
    set c | c in consents && RefusedBySome(cfg, users, c) :: Pair(c)
  }

  ghost function Remaining(consents: set<Consent>, pairs: set<(string, string)>): set<Consent> {
    set c | c in consents && !(c.client.Some? && Pair(c) in pairs)
  }

  ghost function PairsOf(username: string, ids: set<string>): set<(string, string)> {
    set id | id in ids :: (username, id)
  }

  ghost predicate PairRefused(cfg: Config, users: seq<User>, consents: set<Consent>, p: (string, string)) {
    exists c :: c in consents && RefusedBySome(cfg, users, c) && Pair(c) == p
  }

  /** How far a sweep has come after these users: the consents of the counted pairs
      are gone, all of them refused; without errors they are all the refused ones. */
  ghost predicate Swept(cfg: Config, users: seq<User>, start: set<Consent>, pairs: set<(string, string)>,
                        consents: set<Consent>, revoked: nat, clean: bool) {
    && revoked == |pairs| && consents == Remaining(start, pairs)
    && (forall p :: p in pairs ==> PairRefused(cfg, users, start, p))
    && (clean ==> forall c :: c in start && RefusedBySome(cfg, users, c) ==> Pair(c) in pairs)
  }

  lemma SweptStep(cfg: Config, users: seq<User>, n: nat, start: set<Consent>, pairs: set<(string, string)>,
                  before: set<Consent>, after: set<Consent>, gone: set<string>, revoked: nat, clean: bool, ok: bool)
    requires n < |users| && DistinctUsers(users) && Swept(cfg, users[..n], start, pairs, before, revoked, clean)
    requires after == set c | c in before && !(c.username == users[n].username && c.client.Some? && c.client.value in gone)
    requires forall id :: id in gone ==> Held(before, users[n].username, id) != {} && !Entitled(cfg, id, users[n])
    requires ok ==> forall id :: id in gone <==> Held(before, users[n].username, id) != {} && !Entitled(cfg, id, users[n])
    ensures Swept(cfg, users[..n + 1], start, pairs + PairsOf(users[n].username, gone), after, revoked + |gone|, clean && ok)
  {
    PairsOfSize(users[n].username, gone);
    RemainingAgain(start, pairs, users[n].username, gone, before, after);
    MorePairsRefused(cfg, users, n, start, pairs, gone, before);
    OldPairsRefused(cfg, users, n, start, pairs);
    if clean && ok {
      CoversNext(cfg, users, n, start, pairs, gone, before);
    }
  }

  lemma {:induction false} PairsOfSize(username: string, ids: set<string>)
    ensures |PairsOf(username, ids)| == |ids|
    decreases |ids|
  {
    if ids != {} {
      var id :| id in ids;
      PairsOfSize(username, ids - {id});
      assert PairsOf(username, ids) == PairsOf(username, ids - {id}) + {(username, id)};
    }
  }

  lemma RemainingAgain(consents: set<Consent>, pairs: set<(string, string)>, username: string, gone: set<string>, before: set<Consent>, after: set<Consent>)
    requires before == Remaining(consents, pairs)
    requires after == set c | c in before && !(c.username == username && c.client.Some? && c.client.value in gone)
    ensures after == Remaining(consents, pairs + PairsOf(username, gone))
  {
    forall c: Consent | c.client.Some? ensures Pair(c) in PairsOf(username, gone) <==> c.username == username && c.client.value in gone {
    }
  }

  lemma OldPairsRefused(cfg: Config, users: seq<User>, n: nat, consents: set<Consent>, pairs: set<(string, string)>)
    requires n < |users| && forall p :: p in pairs ==> PairRefused(cfg, users[..n], consents, p)
    ensures forall p :: p in pairs ==> PairRefused(cfg, users[..n + 1], consents, p)
  {
    forall p | p in pairs ensures PairRefused(cfg, users[..n + 1], consents, p) {
      var c :| c in consents && RefusedBySome(cfg, users[..n], c) && Pair(c) == p;
      var i :| 0 <= i < n && Refused(cfg, users[..n][i], c);
      assert Refused(cfg, users[..n + 1][i], c);
    }
  }

  lemma MorePairsRefused(cfg: Config, users: seq<User>, n: nat, consents: set<Consent>, pairs: set<(string, string)>, gone: set<string>, before: set<Consent>)
    requires n < |users| && before <= consents
    requires forall id :: id in gone ==> Held(before, users[n].username, id) != {} && !Entitled(cfg, id, users[n])
    ensures forall p :: p in PairsOf(users[n].username, gone) ==> PairRefused(cfg, users[..n + 1], consents, p)
  {
    forall p | p in PairsOf(users[n].username, gone) ensures PairRefused(cfg, users[..n + 1], consents, p) {
      var c :| c in Held(before, users[n].username, p.1);
      assert Refused(cfg, users[..n + 1][n], c) && Pair(c) == p;
    }
  }

  lemma CoversNext(cfg: Config, users: seq<User>, n: nat, consents: set<Consent>, pairs: set<(string, string)>, gone: set<string>, before: set<Consent>)
    requires n < |users| && before == Remaining(consents, pairs)
    requires forall c :: c in consents && RefusedBySome(cfg, users[..n], c) ==> Pair(c) in pairs
    requires forall id :: id in gone <==> Held(before, users[n].username, id) != {} && !Entitled(cfg, id, users[n])
    ensures forall c :: c in consents && RefusedBySome(cfg, users[..n + 1], c) ==> Pair(c) in pairs + PairsOf(users[n].username, gone)
  {
    forall c | c in consents && RefusedBySome(cfg, users[..n + 1], c) ensures Pair(c) in pairs + PairsOf(users[n].username, gone) {
      var i :| 0 <= i < n + 1 && Refused(cfg, users[..n + 1][i], c);
      if i < n {
        assert Refused(cfg, users[..n][i], c);
      } else if Pair(c) !in pairs {
        assert c in Held(before, users[n].username, c.client.value);
      }
    }
  }

  lemma SweepOutcome(cfg: Config, users: seq<User>, consents: set<Consent>, pairs: set<(string, string)>, clean: bool)
    requires forall p :: p in pairs ==> PairRefused(cfg, users, consents, p)
    requires DistinctUsers(users)
    requires clean ==> forall c :: c in consents && RefusedBySome(cfg, users, c) ==> Pair(c) in pairs
    ensures forall c :: c in consents - Remaining(consents, pairs) ==> RefusedBySome(cfg, users, c)
    ensures clean ==> forall c :: c in Remaining(consents, pairs) ==> !RefusedBySome(cfg, users, c)
    ensures |pairs| <= |RefusedPairs(cfg, users, consents)|
    ensures clean ==> pairs == RefusedPairs(cfg, users, consents)
  {
    assert pairs <= RefusedPairs(cfg, users, consents);
    SubsetSize(pairs, RefusedPairs(cfg, users, consents));
    forall c | c in consents - Remaining(consents, pairs) ensures RefusedBySome(cfg, users, c) {
      var d :| d in consents && RefusedBySome(cfg, users, d) && Pair(d) == Pair(c);
      var i :| 0 <= i < |users| && Refused(cfg, users[i], d);
      assert Refused(cfg, users[i], c);
    }
  }

  lemma {:induction false} SubsetSize<T>(a: set<T>, b: set<T>)
    requires a <= b
    ensures |a| <= |b|
    decreases |a|
  {
    if a != {} {
      var x :| x in a;
      SubsetSize(a - {x}, b - {x});
    }
  }
}
