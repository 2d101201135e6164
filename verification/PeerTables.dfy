/**
 The server's peer tables as values: what the event loop's handlers compute, with the choices made by
 map iteration, the configuration and the clock made explicit.
 */
module PeerTables {
  import opened Common

  /** What the tables know of a peer.  The id is zero until the peer's version message arrives; the
      version is known by the time the id is set. */
  datatype PeerInfo = PeerInfo(
    id: int, inbound: bool, persistent: bool, whitelisted: bool, addr: string, host: Option<string>,
    group: string, ip: string)

  datatype Tables = Tables(
    inbound: map<int, PeerInfo>, outbound: map<int, PeerInfo>, persistent: map<int, PeerInfo>,
    groups: map<string, int>, ips: map<string, int>, banned: map<string, int>)

  const EMPTY: Tables := Tables(map[], map[], map[], map[], map[], map[])

  function Get(m: map<string, int>, k: string): int {
    if k in m then m[k] else 0
  }

  function Members(t: Tables): set<int> {
    t.inbound.Keys + t.outbound.Keys + t.persistent.Keys
  }

  function Count(t: Tables): nat {
    |t.inbound| + |t.outbound| + |t.persistent|
  }

  // ---------- The invariant ----------

  function InGroup(m: map<int, PeerInfo>, g: string): set<int> {
    set id | id in m && m[id].group == g
  }

  function AtIP(m: map<int, PeerInfo>, ip: string): set<int> {
    set id | id in m && m[id].ip == ip
  }

  /** Each peer is under its own id in the table of its kind. */
  predicate Sorted(t: Tables) {
    && (forall id :: id in t.inbound ==>
          t.inbound[id].id == id > 0 && t.inbound[id].inbound && !t.inbound[id].persistent)
    && (forall id :: id in t.outbound ==>
          t.outbound[id].id == id > 0 && !t.outbound[id].inbound && !t.outbound[id].persistent)
    && (forall id :: id in t.persistent ==>
          t.persistent[id].id == id > 0 && !t.persistent[id].inbound && t.persistent[id].persistent)
    && t.inbound.Keys !! t.outbound.Keys && t.inbound.Keys !! t.persistent.Keys && t.outbound.Keys !! t.persistent.Keys
  }

  /** The accounting maps count the outbound and persistent peers of each group and address. */
  ghost predicate Tallied(t: Tables) {
    GroupsTallied(t) && IPsTallied(t)
  }

  ghost predicate GroupsTallied(t: Tables) {
    forall g :: Get(t.groups, g) == |InGroup(t.outbound, g)| + |InGroup(t.persistent, g)|
  }

  ghost predicate IPsTallied(t: Tables) {
    forall ip :: ip != "" ==> Get(t.ips, ip) == |AtIP(t.outbound, ip)| + |AtIP(t.persistent, ip)|
  }

  ghost predicate Inv(t: Tables) {
    Sorted(t) && Tallied(t)
  }

  // ---------- Handlers ----------

  function Bump(m: map<string, int>, k: string, delta: int): map<string, int> {
    m[k := Get(m, k) + delta]
  }

  function Track(t: Tables, p: PeerInfo): Tables {
    t.(groups := Bump(t.groups, p.group, 1), ips := if p.ip == "" then t.ips else Bump(t.ips, p.ip, 1))
  }

  function Untrack(t: Tables, p: PeerInfo): Tables {
    if !p.inbound && p.id > 0
    then t.(groups := Bump(t.groups, p.group, -1), ips := if p.ip == "" then t.ips else Bump(t.ips, p.ip, -1))
    else t
  }

  /** What a handler reads besides the tables: limits, flags, the clock and which peers are connected. */
  datatype Env = Env(
    maxPeers: int, maxPeersPerIP: int, undesired: bool, shutdown: bool, now: int, connected: set<int>)

  /** The outcome of handling a new peer: the tables, whether it was let in, and whom to disconnect. */
  datatype Added = Added(tables: Tables, accepted: bool, dropped: set<int>)

  function FromIP(m: map<int, PeerInfo>, ip: string, connected: set<int>): set<int> {
    set id | id in m && id in connected && m[id].ip == ip
  }

  function PerIP(t: Tables, ip: string, connected: set<int>): nat {
    |FromIP(t.inbound, ip, connected)| + |FromIP(t.outbound, ip, connected)| + |FromIP(t.persistent, ip, connected)|
  }

  predicate HasOther(m: map<int, PeerInfo>, p: PeerInfo, connected: set<int>) {
    exists id :: id in m && id in connected && m[id] != p && m[id].addr == p.addr
  }

  predicate Duplicate(t: Tables, p: PeerInfo, connected: set<int>) {
    HasOther(t.inbound, p, connected) || HasOther(t.outbound, p, connected) || HasOther(t.persistent, p, connected)
  }

  /** An inbound peer that may be asked to leave. */
  predicate Evictable(t: Tables, id: int) {
    id in t.inbound && !t.inbound[id].whitelisted
  }

  predicate HasEvictable(t: Tables) {
    exists id :: id in t.inbound && Evictable(t, id)
  }

  /** The first checks of handleAddPeerMsg: is the peer turned away before the limits are looked at? */
  predicate TurnedAway(t: Tables, p: PeerInfo, env: Env) {
    || env.undesired || env.shutdown || p.host.None?
    || (p.host.value in t.banned && env.now < t.banned[p.host.value])
  }

  /** The tables once an expired ban has been lifted. */
  function Pardoned(t: Tables, p: PeerInfo): Tables
    requires p.host.Some?
  {
    t.(banned := t.banned - {p.host.value})
  }

  /** The limit checks: per address, duplicate, and the inbound share. */
  predicate OverLimit(t: Tables, p: PeerInfo, env: Env) {
    || (p.inbound && !p.whitelisted && env.maxPeersPerIP > 0 && p.ip != ""
        && PerIP(t, p.ip, env.connected) >= env.maxPeersPerIP)
    || (!p.inbound && Duplicate(t, p, env.connected))
    || (p.inbound && |t.inbound| >= env.maxPeers - (|t.outbound| + |t.persistent|))
  }

  function Insert(t: Tables, p: PeerInfo): Tables {
    if p.inbound then t.(inbound := t.inbound[p.id := p])
    else
      var tracked := Track(t, p);
      if p.persistent then tracked.(persistent := t.persistent[p.id := p])
      else tracked.(outbound := t.outbound[p.id := p])
  }

  /** `victim` is a legal choice of the peer to evict, should one be needed. */
  predicate VictimOk(t: Tables, victim: int) {
    HasEvictable(t) ==> Evictable(t, victim)
  }

  /** handleAddPeerMsg. */
  function HandleAdd(t: Tables, p: PeerInfo, env: Env, victim: int): Added
    requires VictimOk(t, victim)
  {
    if p.id !in env.connected then Added(t, false, {})
    else if TurnedAway(t, p, env) then Added(t, false, {p.id})
    else Admit(Pardoned(t, p), p, env, victim)
  }

  /** The limit checks and what follows them. */
  function Admit(t: Tables, p: PeerInfo, env: Env, victim: int): Added {
    if OverLimit(t, p, env) then Added(t, false, {p.id})
    else if Count(t) < env.maxPeers then Added(Insert(t, p), true, {})
    else if !p.inbound && HasEvictable(t) then Added(Insert(t, p), true, {victim})
    else Added(t, false, {p.id})
  }

  function ListOf(t: Tables, p: PeerInfo): map<int, PeerInfo> {
    if p.persistent then t.persistent else if p.inbound then t.inbound else t.outbound
  }

  /** Take `p` out of the table of its kind. */
  function Delete(t: Tables, p: PeerInfo): Tables {
    if p.persistent then t.(persistent := t.persistent - {p.id})
    else if p.inbound then t.(inbound := t.inbound - {p.id})
    else t.(outbound := t.outbound - {p.id})
  }

  /** handleDonePeerMsg, as far as the tables go. */
  function HandleDone(t: Tables, p: PeerInfo): Tables {
    if p.id in ListOf(t, p) then Delete(Untrack(t, p), p) else t
  }

  /** disconnectPeer on the inbound table: nothing to account for. */
  function DropInbound(t: Tables, id: int): Tables {
    t.(inbound := t.inbound - {id})
  }

  /** disconnectPeer on the persistent table: the tallies are put right before the peer goes. */
  function DropPersistent(t: Tables, id: int): Tables
    requires id in t.persistent
  {
    Untrack(t, t.persistent[id]).(persistent := t.persistent - {id})
  }

  function DropOutbound(t: Tables, id: int): Tables
    requires id in t.outbound
  {
    Untrack(t, t.outbound[id]).(outbound := t.outbound - {id})
  }

  /** The repeated disconnectPeer of the disconnectnode query, in the order the peers happened to go. */
  function DropAllOutbound(t: Tables, ids: seq<int>): Tables {
    if ids == [] then t
    else
      var front := DropAllOutbound(t, ids[..|ids| - 1]);
      if ids[|ids| - 1] in front.outbound then DropOutbound(front, ids[|ids| - 1]) else front
  }

  // ---------- The handlers keep the invariant ----------

  lemma EmptyInv()
    ensures Inv(EMPTY)
  {
    forall g ensures InGroup(map[], g) == {} == AtIP(map[], g) {}
  }

  lemma GroupAfterPut(m: map<int, PeerInfo>, p: PeerInfo, g: string)
    requires p.id !in m
    ensures |InGroup(m[p.id := p], g)| == |InGroup(m, g)| + (if p.group == g then 1 else 0)
  {
    if p.group == g {
      assert InGroup(m[p.id := p], g) == InGroup(m, g) + {p.id};
    } else {
      assert InGroup(m[p.id := p], g) == InGroup(m, g);
    }
  }

  lemma IPAfterPut(m: map<int, PeerInfo>, p: PeerInfo, ip: string)
    requires p.id !in m
    ensures |AtIP(m[p.id := p], ip)| == |AtIP(m, ip)| + (if p.ip == ip then 1 else 0)
  {
    if p.ip == ip {
      assert AtIP(m[p.id := p], ip) == AtIP(m, ip) + {p.id};
    } else {
      assert AtIP(m[p.id := p], ip) == AtIP(m, ip);
    }
  }

  lemma GroupAfterDelete(m: map<int, PeerInfo>, id: int, g: string)
    requires id in m
    ensures |InGroup(m - {id}, g)| == |InGroup(m, g)| - (if m[id].group == g then 1 else 0)
  {
    if m[id].group == g {
      assert InGroup(m, g) == InGroup(m - {id}, g) + {id};
    } else {
      assert InGroup(m - {id}, g) == InGroup(m, g);
    }
  }

  lemma IPAfterDelete(m: map<int, PeerInfo>, id: int, ip: string)
    requires id in m
    ensures |AtIP(m - {id}, ip)| == |AtIP(m, ip)| - (if m[id].ip == ip then 1 else 0)
  {
    if m[id].ip == ip {
      assert AtIP(m, ip) == AtIP(m - {id}, ip) + {id};
    } else {
      assert AtIP(m - {id}, ip) == AtIP(m, ip);
    }
  }

  lemma InsertGroups(t: Tables, p: PeerInfo)
    requires GroupsTallied(t) && !p.inbound && p.id !in ListOf(t, p)
    ensures GroupsTallied(Insert(t, p))
  {
    var m, m' := ListOf(t, p), ListOf(Insert(t, p), p);
    forall g ensures |InGroup(m', g)| == |InGroup(m, g)| + (if p.group == g then 1 else 0) {
      GroupAfterPut(m, p, g);
    }
  }

  lemma InsertIPs(t: Tables, p: PeerInfo)
    requires IPsTallied(t) && !p.inbound && p.id !in ListOf(t, p)
    ensures IPsTallied(Insert(t, p))
  {
    var m, m' := ListOf(t, p), ListOf(Insert(t, p), p);
    forall ip ensures |AtIP(m', ip)| == |AtIP(m, ip)| + (if p.ip == ip then 1 else 0) {
      IPAfterPut(m, p, ip);
    }
  }

  lemma InsertSorted(t: Tables, p: PeerInfo)
    requires Sorted(t) && p.id > 0 && p.id !in Members(t) && !(p.inbound && p.persistent)
    ensures Sorted(Insert(t, p))
  {
  }

  lemma InsertTallied(t: Tables, p: PeerInfo)
    requires Tallied(t) && p.id !in ListOf(t, p)
    ensures Tallied(Insert(t, p))
  {
    if !p.inbound {
      InsertGroups(t, p);
      InsertIPs(t, p);
    }
  }

  lemma InsertKeepsInv(t: Tables, p: PeerInfo)
    requires Inv(t) && p.id > 0 && p.id !in Members(t) && !(p.inbound && p.persistent)
    ensures Inv(Insert(t, p))
  {
    InsertSorted(t, p);
    InsertTallied(t, p);
  }

  lemma DeleteGroups(t: Tables, p: PeerInfo)
    requires GroupsTallied(t) && !p.inbound && p.id > 0 && p.id in ListOf(t, p) && ListOf(t, p)[p.id] == p
    ensures GroupsTallied(Delete(Untrack(t, p), p))
  {
    var m, m' := ListOf(t, p), ListOf(Delete(Untrack(t, p), p), p);
    forall g ensures |InGroup(m', g)| == |InGroup(m, g)| - (if p.group == g then 1 else 0) {
      GroupAfterDelete(m, p.id, g);
    }
  }

  lemma DeleteIPs(t: Tables, p: PeerInfo)
    requires IPsTallied(t) && !p.inbound && p.id > 0 && p.id in ListOf(t, p) && ListOf(t, p)[p.id] == p
    ensures IPsTallied(Delete(Untrack(t, p), p))
  {
    var m, m' := ListOf(t, p), ListOf(Delete(Untrack(t, p), p), p);
    forall ip ensures |AtIP(m', ip)| == |AtIP(m, ip)| - (if p.ip == ip then 1 else 0) {
      IPAfterDelete(m, p.id, ip);
    }
  }

  lemma RemoveKeepsInv(t: Tables, p: PeerInfo)
    requires Inv(t) && p.id in ListOf(t, p) && ListOf(t, p)[p.id] == p
    ensures Inv(Delete(Untrack(t, p), p))
  {
    if !p.inbound {
      DeleteGroups(t, p);
      DeleteIPs(t, p);
    }
  }

  lemma HandleAddKeepsInv(t: Tables, p: PeerInfo, env: Env, victim: int)
    requires Inv(t) && VictimOk(t, victim) && p.id > 0 && p.id !in Members(t) && !(p.inbound && p.persistent)
    ensures Inv(HandleAdd(t, p, env, victim).tables)
  {
    AddOutcome(t, p, env, victim);
    OutcomeKeepsInv(t, p, HandleAdd(t, p, env, victim).tables);
  }

  lemma OutcomeKeepsInv(t: Tables, p: PeerInfo, t': Tables)
    requires Inv(t) && p.id > 0 && p.id !in Members(t) && !(p.inbound && p.persistent)
    requires t' == t || (p.host.Some? && (t' == Pardoned(t, p) || t' == Insert(Pardoned(t, p), p)))
    ensures Inv(t')
  {
    if p.host.Some? {
      PardonKeepsInv(t, p);
      assert Members(Pardoned(t, p)) == Members(t);
      InsertKeepsInv(Pardoned(t, p), p);
    }
  }

  lemma PardonKeepsInv(t: Tables, p: PeerInfo)
    requires Inv(t) && p.host.Some?
    ensures Inv(Pardoned(t, p))
  {
  }

  lemma HandleDoneKeepsInv(t: Tables, p: PeerInfo)
    requires Inv(t) && (p.id in ListOf(t, p) ==> ListOf(t, p)[p.id] == p)
    ensures Inv(HandleDone(t, p)) && p.id !in ListOf(HandleDone(t, p), p)
  {
    if p.id in ListOf(t, p) { RemoveKeepsInv(t, p); }
  }

  lemma DropPersistentKeepsInv(t: Tables, id: int)
    requires Inv(t) && id in t.persistent
    ensures Inv(DropPersistent(t, id))
  {
    RemoveKeepsInv(t, t.persistent[id]);
  }

  lemma DropOutboundKeepsInv(t: Tables, id: int)
    requires Inv(t) && id in t.outbound
    ensures Inv(DropOutbound(t, id))
  {
    RemoveKeepsInv(t, t.outbound[id]);
  }

  lemma {:induction false} DropAllKeepsInv(t: Tables, ids: seq<int>)
    requires Inv(t)
    ensures Inv(DropAllOutbound(t, ids))
  {
    if ids == [] {
    } else {
      var front, last := DropAllOutbound(t, ids[..|ids| - 1]), ids[|ids| - 1];
      DropAllKeepsInv(t, ids[..|ids| - 1]);
      if last in front.outbound { DropOutboundKeepsInv(front, last); }
    }
  }

  lemma {:induction false} DropAllMembers(t: Tables, ids: seq<int>)
    ensures
      var r := DropAllOutbound(t, ids);
      && r.inbound == t.inbound && r.persistent == t.persistent && r.banned == t.banned
      && r.outbound == t.outbound - (set id | id in ids)
  {
    if ids == [] {
      assert t.outbound - (set id | id in ids) == t.outbound;
    } else {
      var front, last := ids[..|ids| - 1], ids[|ids| - 1];
      DropAllMembers(t, front);
      assert (set id | id in ids) == (set id | id in front) + {last} by { assert ids == front + [last]; }
      assert t.outbound - (set id | id in front) - {last} == t.outbound - (set id | id in ids);
    }
  }

  /** The accounting maps are never negative. */
  lemma TalliesNonNegative(t: Tables, k: string)
    requires Inv(t)
    ensures Get(t.groups, k) >= 0 && (k != "" ==> Get(t.ips, k) >= 0)
  {
    assert Get(t.groups, k) == |InGroup(t.outbound, k)| + |InGroup(t.persistent, k)|;
  }

  lemma CountAfterInsert(t: Tables, p: PeerInfo)
    requires p.id !in Members(t)
    ensures Count(Insert(t, p)) == Count(t) + 1
  {
  }

  /** How many connected peers of a table share the peer's IP. */
  function Sharing(m: map<int, PeerInfo>, p: PeerInfo, env: Env): nat {
    |set id | id in m && id in env.connected && m[id].ip == p.ip|
  }

  /** No other connected peer of a table has the peer's address. */
  predicate Alone(m: map<int, PeerInfo>, p: PeerInfo, env: Env) {
    forall id :: id in m && id in env.connected && m[id].addr == p.addr ==> m[id] == p
  }

  /** The peer got past the checks that come before the limits: it is connected and its agent is wanted, the
      server is not shutting down, its host parses, and no ban of the host is still running. */
  predicate Welcome(t: Tables, p: PeerInfo, env: Env) {
    && p.id in env.connected && !env.undesired && !env.shutdown && p.host.Some?
    && (p.host.value in t.banned ==> t.banned[p.host.value] <= env.now)
  }

  /** What decides whether a peer is let in, in terms of the tables and the configuration before.  An inbound
      peer that is not whitelisted and has an IP shares it with fewer connected peers than the limit, if there
      is one; an outbound peer is the only one connected to its address; and there is room, or an inbound peer
      that is not whitelisted makes room for an outbound one. */
  predicate Admissible(t: Tables, p: PeerInfo, env: Env) {
    && Welcome(t, p, env)
    && (p.inbound && !p.whitelisted && p.ip != "" && env.maxPeersPerIP > 0 ==>
          Sharing(t.inbound, p, env) + Sharing(t.outbound, p, env) + Sharing(t.persistent, p, env) < env.maxPeersPerIP)
    && (!p.inbound ==> Alone(t.inbound, p, env) && Alone(t.outbound, p, env) && Alone(t.persistent, p, env))
    && (|| |t.inbound| + |t.outbound| + |t.persistent| < env.maxPeers
        || (!p.inbound && exists id :: id in t.inbound && !t.inbound[id].whitelisted))
  }

  lemma SharingCounts(m: map<int, PeerInfo>, p: PeerInfo, env: Env)
    ensures |FromIP(m, p.ip, env.connected)| == Sharing(m, p, env)
  {
    assert FromIP(m, p.ip, env.connected) == set id | id in m && id in env.connected && m[id].ip == p.ip;
  }

  lemma OverLimitIff(t: Tables, p: PeerInfo, env: Env)
    ensures !OverLimit(t, p, env) <==>
      && (p.inbound && !p.whitelisted && p.ip != "" && env.maxPeersPerIP > 0 ==>
            Sharing(t.inbound, p, env) + Sharing(t.outbound, p, env) + Sharing(t.persistent, p, env) <
            env.maxPeersPerIP)
      && (!p.inbound ==> Alone(t.inbound, p, env) && Alone(t.outbound, p, env) && Alone(t.persistent, p, env))
      && (p.inbound ==> |t.inbound| + |t.outbound| + |t.persistent| < env.maxPeers)
  {
    SharingCounts(t.inbound, p, env);
    SharingCounts(t.outbound, p, env);
    SharingCounts(t.persistent, p, env);
  }

  lemma EvictableIff(t: Tables)
    ensures HasEvictable(t) <==> exists id :: id in t.inbound && !t.inbound[id].whitelisted
  {
    if id :| id in t.inbound && !t.inbound[id].whitelisted {
      assert Evictable(t, id);
    }
  }

  lemma SameEvictable(t: Tables, p: PeerInfo)
    requires p.host.Some?
    ensures HasEvictable(Pardoned(t, p)) <==> HasEvictable(t)
  {
    assert forall id :: Evictable(Pardoned(t, p), id) <==> Evictable(t, id);
  }

  lemma AcceptedIff(t: Tables, p: PeerInfo, env: Env, victim: int)
    requires VictimOk(t, victim)
    ensures HandleAdd(t, p, env, victim).accepted <==> Admissible(t, p, env)
  {
    if p.host.Some? {
      SameEvictable(t, p);
      EvictableIff(t);
      OverLimitIff(Pardoned(t, p), p, env);
    }
  }

  lemma AdmitLeaves(t: Tables, p: PeerInfo, env: Env, victim: int)
    ensures
      var r := Admit(t, p, env, victim);
      && r.tables.banned == t.banned && (!r.accepted ==> r.dropped == {p.id} && r.tables == t)
      && (r.accepted ==>
            && r.dropped == (if |t.inbound| + |t.outbound| + |t.persistent| < env.maxPeers then {} else {victim})
            && r.tables.inbound == (if p.inbound then t.inbound[p.id := p] else t.inbound)
            && r.tables.outbound == (if !p.inbound && !p.persistent then t.outbound[p.id := p] else t.outbound)
            && r.tables.persistent == (if !p.inbound && p.persistent then t.persistent[p.id := p] else t.persistent))
  {
  }

  /** What an add leaves behind.  The ban of a host, if there is one, is lifted just when the peer is welcome.
      A peer that is let in is in the table of its kind, and nothing else changes in the tables.  One that is
      not is disconnected, unless it was not connected; one that is let in on a full server costs another its
      place. */
  lemma AddLeaves(t: Tables, p: PeerInfo, env: Env, victim: int)
    requires VictimOk(t, victim)
    ensures
      var r := HandleAdd(t, p, env, victim);
      && r.tables.banned == (if Welcome(t, p, env) then t.banned - {p.host.value} else t.banned)
      && (!r.accepted ==>
            && r.dropped == (if p.id in env.connected then {p.id} else {})
            && r.tables == t.(banned := r.tables.banned))
      && (r.accepted ==>
            && r.dropped == (if |t.inbound| + |t.outbound| + |t.persistent| < env.maxPeers then {} else {victim})
            && r.tables.inbound == (if p.inbound then t.inbound[p.id := p] else t.inbound)
            && r.tables.outbound == (if !p.inbound && !p.persistent then t.outbound[p.id := p] else t.outbound)
            && r.tables.persistent == (if !p.inbound && p.persistent then t.persistent[p.id := p] else t.persistent))
  {
    if Welcome(t, p, env) {
      AdmitLeaves(Pardoned(t, p), p, env, victim);
    }
  }

  /** A ban that is still running keeps the peer out and the tables as they are. */
  lemma RunningBan(t: Tables, p: PeerInfo, env: Env, victim: int)
    requires VictimOk(t, victim) && p.host.Some? && p.host.value in t.banned && env.now < t.banned[p.host.value]
    ensures !HandleAdd(t, p, env, victim).accepted && HandleAdd(t, p, env, victim).tables == t
  {
    AddLeaves(t, p, env, victim);
  }

  /** When the peer count is over the limit after an add: exactly when it was over it before, or was at it
      and the peer is admissible, which then takes an outbound peer and an inbound one to be asked to
      leave.  That one stays counted until its own departure is handled, so the limit is not an
      invariant of the tables. */
  lemma OverBudgetIff(t: Tables, p: PeerInfo, env: Env, victim: int)
    requires VictimOk(t, victim) && p.id !in Members(t)
    ensures Count(HandleAdd(t, p, env, victim).tables) > env.maxPeers <==>
      Count(t) > env.maxPeers || (Count(t) == env.maxPeers && Admissible(t, p, env))
    ensures Count(t) >= env.maxPeers && Admissible(t, p, env) ==> !p.inbound && HasEvictable(t)
  {
    AcceptedIff(t, p, env, victim);
    AddOutcome(t, p, env, victim);
    if p.host.Some? {
      CountAfterInsert(Pardoned(t, p), p);
    }
  }

  /** One more outbound peer, not yet known and with an address of its own, comes to a server that is full or
      over its limit. */
  predicate Calls(t: Tables, p: PeerInfo, env: Env) {
    && p.id !in Members(t) && p.id in env.connected && !p.inbound && p.host.Some? && p.host.value !in t.banned
    && !env.undesired && !env.shutdown && Count(t) >= env.maxPeers && !Duplicate(t, p, env.connected)
  }

  lemma AdmitToFull(t: Tables, p: PeerInfo, env: Env, victim: int)
    requires Evictable(t, victim) && Calls(t, p, env) && !OverLimit(t, p, env)
    ensures Admit(t, p, env, victim) == Added(Insert(t, p), true, {victim})
  {
    assert victim in t.inbound && HasEvictable(t);
  }

  lemma NothingToPardon(t: Tables, p: PeerInfo)
    requires p.host.Some? && p.host.value !in t.banned
    ensures Pardoned(t, p) == t
  {
    assert t.banned - {p.host.value} == t.banned;
  }

  lemma StillEvictable(t: Tables, p: PeerInfo, victim: int)
    requires Evictable(t, victim) && !p.inbound
    ensures Evictable(Insert(t, p), victim)
  {
    assert Insert(t, p).inbound == t.inbound;
  }

  /** Such a peer is let in on account of an inbound peer that has been asked to leave before, as often as one
      comes while that one has not left. */
  lemma LetInAgain(t: Tables, p: PeerInfo, env: Env, victim: int)
    requires Evictable(t, victim) && Calls(t, p, env)
    ensures
      var r := HandleAdd(t, p, env, victim);
      r.accepted && r.dropped == {victim} && Evictable(r.tables, victim) && Count(r.tables) == Count(t) + 1
  {
    NothingToPardon(t, p);
    AdmitToFull(t, p, env, victim);
    StillEvictable(t, p, victim);
    CountAfterInsert(t, p);
  }

  /** An outbound peer of the example below. */
  function Caller(id: int, addr: string): PeerInfo {
    PeerInfo(id, false, false, false, addr, Some(addr), "g", "")
  }

  function OneGuest(guest: PeerInfo): Tables {
    Tables(map[1 := guest], map[], map[], map[], map[], map[])
  }

  predicate Guest(p: PeerInfo) {
    p.id == 1 && p.inbound && !p.whitelisted && p.addr == "a"
  }

  predicate Full(env: Env, connected: set<int>) {
    env.maxPeers == 1 && !env.undesired && !env.shutdown && env.connected == connected
  }

  lemma FirstCaller(guest: PeerInfo, env: Env)
    requires Guest(guest) && Full(env, {1, 2})
    ensures Evictable(OneGuest(guest), 1) && Calls(OneGuest(guest), Caller(2, "b"), env)
    ensures
      var t := HandleAdd(OneGuest(guest), Caller(2, "b"), env, 1).tables;
      && t.inbound == map[1 := guest] && t.outbound == map[2 := Caller(2, "b")]
      && t.persistent == map[] && t.banned == map[]
  {
    assert Count(OneGuest(guest)) == 1;
    LetInAgain(OneGuest(guest), Caller(2, "b"), env, 1);
  }

  lemma SecondCaller(guest: PeerInfo, env: Env, env': Env)
    requires Guest(guest) && Full(env, {1, 2}) && Full(env', {2, 3})
    ensures
      var t := HandleAdd(OneGuest(guest), Caller(2, "b"), env, 1).tables;
      Evictable(t, 1) && Calls(t, Caller(3, "c"), env')
  {
    FirstCaller(guest, env);
    LetInAgain(OneGuest(guest), Caller(2, "b"), env, 1);
  }

  /** A server limited to one peer has an inbound one.  Two outbound peers arrive before its departure has been
      handled, the second when it is no longer connected: each is let in on account of the same inbound peer,
      and there are three peers. */
  lemma SameVictimTwice(guest: PeerInfo, env: Env, env': Env)
    requires Guest(guest) && Full(env, {1, 2}) && Full(env', {2, 3})
    ensures
      && VictimOk(OneGuest(guest), 1) && Count(OneGuest(guest)) == 1
      && var once := HandleAdd(OneGuest(guest), Caller(2, "b"), env, 1);
      && once.dropped == {1} && VictimOk(once.tables, 1) && Count(once.tables) == 2
      && var twice := HandleAdd(once.tables, Caller(3, "c"), env', 1);
      twice.accepted && twice.dropped == {1} && Count(twice.tables) == 3
  {
    FirstCaller(guest, env);
    LetInAgain(OneGuest(guest), Caller(2, "b"), env, 1);
    SecondCaller(guest, env, env');
    LetInAgain(HandleAdd(OneGuest(guest), Caller(2, "b"), env, 1).tables, Caller(3, "c"), env', 1);
  }

  /** A peer evicted to make room is inbound, not whitelisted, and still in the tables. */
  lemma EvictedIsInbound(t: Tables, p: PeerInfo, env: Env, victim: int)
    requires VictimOk(t, victim)
    ensures
      var r := HandleAdd(t, p, env, victim);
      r.accepted && r.dropped != {} ==>
        !p.inbound && r.dropped == {victim} && victim in r.tables.inbound && !r.tables.inbound[victim].whitelisted
  {
    if p.host.Some? && !p.inbound {
      assert Insert(Pardoned(t, p), p).inbound == t.inbound;
      assert forall id :: Evictable(Pardoned(t, p), id) == Evictable(t, id);
    }
  }

  /** An inbound peer is only let in within the limit, whatever has happened before. */
  lemma InboundWithinBudget(t: Tables, p: PeerInfo, env: Env, victim: int)
    requires VictimOk(t, victim) && p.id !in Members(t) && p.inbound && HandleAdd(t, p, env, victim).accepted
    ensures Count(HandleAdd(t, p, env, victim).tables) <= env.maxPeers
  {
    CountAfterInsert(Pardoned(t, p), p);
  }

  /** The tables after an add: untouched, or with an expired ban lifted, or with the peer in as well. */
  lemma AddOutcome(t: Tables, p: PeerInfo, env: Env, victim: int)
    requires VictimOk(t, victim)
    ensures
      var r := HandleAdd(t, p, env, victim);
      if r.accepted then p.host.Some? && r.tables == Insert(Pardoned(t, p), p)
      else r.tables == t || (p.host.Some? && r.tables == Pardoned(t, p))
  {
    if p.id in env.connected && !TurnedAway(t, p, env) { AdmitOutcome(Pardoned(t, p), p, env, victim); }
  }

  lemma AdmitOutcome(t: Tables, p: PeerInfo, env: Env, victim: int)
    ensures Admit(t, p, env, victim).tables == if Admit(t, p, env, victim).accepted then Insert(t, p) else t
  {
  }

  /** `t'` is `t` without the peer `id`, wherever it was. */
  predicate Without(t: Tables, t': Tables, id: int) {
    t'.inbound == t.inbound - {id} && t'.outbound == t.outbound - {id} && t'.persistent == t.persistent - {id}
  }

  lemma AbsentWithout(t: Tables, t': Tables, id: int)
    requires id !in Members(t)
    requires t'.inbound == t.inbound && t'.outbound == t.outbound && t'.persistent == t.persistent
    ensures Without(t, t', id)
  {
    assert id !in t.inbound && id !in t.outbound && id !in t.persistent;
    assert t.inbound - {id} == t.inbound;
    assert t.outbound - {id} == t.outbound;
    assert t.persistent - {id} == t.persistent;
  }

  lemma DoneWithout(t: Tables, p: PeerInfo)
    requires Sorted(t) && (p.id in Members(t) ==> p.id in ListOf(t, p))
    ensures Without(t, HandleDone(t, p), p.id)
  {
    if p.id in ListOf(t, p) {
      assert p.id !in t.inbound ==> t.inbound - {p.id} == t.inbound;
      assert p.id !in t.outbound ==> t.outbound - {p.id} == t.outbound;
      assert p.id !in t.persistent ==> t.persistent - {p.id} == t.persistent;
    } else {
      AbsentWithout(t, t, p.id);
    }
  }
}
