/**
 The event loop's peer state, updated in place by its handlers.  Each handler is proved to do to the
 tables what `PeerTables` says.  Disconnecting a peer is a call to the outside, so a handler returns the
 ids of the peers it disconnects.
 */
module PeerState {
  import opened Common
  import opened PeerTables

  class PeerState {
    var inboundPeers: map<int, PeerInfo>
    var outboundPeers: map<int, PeerInfo>
    var persistentPeers: map<int, PeerInfo>
    var outboundGroups: map<string, int>
    var outboundIPs: map<string, int>
    var banned: map<string, int>

    function View(): Tables
      reads this
    {
      Tables(inboundPeers, outboundPeers, persistentPeers, outboundGroups, outboundIPs, banned)
    }

    constructor ()
      ensures View() == EMPTY && Inv(View())
    {
      inboundPeers, outboundPeers, persistentPeers := map[], map[], map[];
      outboundGroups, outboundIPs, banned := map[], map[], map[];
      new;
      EmptyInv();
    }

    method TrackOutbound(p: PeerInfo)
      modifies this`outboundGroups, this`outboundIPs
      ensures View() == Track(old(View()), p)
    {
      outboundGroups := outboundGroups[p.group := Get(outboundGroups, p.group) + 1];
      if p.ip != "" {
        outboundIPs := outboundIPs[p.ip := Get(outboundIPs, p.ip) + 1];
      }
    }

    method UntrackOutbound(p: PeerInfo)
      modifies this`outboundGroups, this`outboundIPs
      ensures View() == Untrack(old(View()), p)
    {
      if !p.inbound && p.id > 0 {
        outboundGroups := outboundGroups[p.group := Get(outboundGroups, p.group) - 1];
        if p.ip != "" {
          outboundIPs := outboundIPs[p.ip := Get(outboundIPs, p.ip) - 1];
        }
      }
    }

    /** How many connected peers of a table have the address `ip`. */
    static method CountFromIP(m: map<int, PeerInfo>, ip: string, connected: set<int>) returns (n: nat)
      ensures n == |FromIP(m, ip, connected)|
    {
      n := 0;
      var todo := m.Keys;
      ghost var seen: set<int> := {};
      while todo != {}
        invariant todo <= m.Keys && n == |seen|
        invariant seen == set id | id in FromIP(m, ip, connected) && id !in todo
      {
        var id := Next(todo);
        todo := todo - {id};
        if id in connected && m[id].ip == ip {
          n := n + 1;
          seen := seen + {id};
        }
      }
      assert seen == FromIP(m, ip, connected);
    }

    static method FindOther(m: map<int, PeerInfo>, p: PeerInfo, connected: set<int>) returns (dup: bool)
      ensures dup == HasOther(m, p, connected)
    {
      dup := false;
      var todo := m.Keys;
      while todo != {}
        invariant todo <= m.Keys
        invariant dup <==> exists id :: id in m && id !in todo && id in connected && m[id] != p && m[id].addr == p.addr
      {
        var id := Next(todo);
        todo := todo - {id};
        if id in connected && m[id] != p && m[id].addr == p.addr {
          dup := true;
        }
      }
    }

    /** The first inbound peer met that is not whitelisted. */
    method PickVictim() returns (evicted: bool, victim: int)
      ensures evicted <==> HasEvictable(View())
      ensures evicted ==> Evictable(View(), victim)
    {
      evicted, victim := false, 0;
      var todo := inboundPeers.Keys;
      while todo != {}
        invariant todo <= inboundPeers.Keys
        invariant forall id :: id in inboundPeers && id !in todo ==> inboundPeers[id].whitelisted
      {
        var id := Next(todo);
        todo := todo - {id};
        if !inboundPeers[id].whitelisted {
          evicted, victim := true, id;
          assert Evictable(View(), victim);
          return;
        }
      }
    }

    /** The limit checks of handleAddPeerMsg. */
    method CheckLimits(p: PeerInfo, env: Env) returns (over: bool)
      ensures over == OverLimit(View(), p, env)
    {
      if p.inbound && !p.whitelisted && env.maxPeersPerIP > 0 {
        if p.ip != "" {
          var n1 := CountFromIP(inboundPeers, p.ip, env.connected);
          var n2 := CountFromIP(outboundPeers, p.ip, env.connected);
          var n3 := CountFromIP(persistentPeers, p.ip, env.connected);
          if n1 + n2 + n3 >= env.maxPeersPerIP {
            return true;
          }
        }
      }
      if !p.inbound {
        var d1 := FindOther(inboundPeers, p, env.connected);
        var d2 := FindOther(outboundPeers, p, env.connected);
        var d3 := FindOther(persistentPeers, p, env.connected);
        if d1 || d2 || d3 {
          return true;
        }
      }
      var outboundCount := |outboundPeers| + |persistentPeers|;
      over := p.inbound && |inboundPeers| >= env.maxPeers - outboundCount;
    }

    method Enter(p: PeerInfo)
      modifies this
      ensures View() == Insert(old(View()), p)
    {
      if p.inbound {
        inboundPeers := inboundPeers[p.id := p];
      } else {
        TrackOutbound(p);
        if p.persistent {
          persistentPeers := persistentPeers[p.id := p];
        } else {
          outboundPeers := outboundPeers[p.id := p];
        }
      }
    }

    /** The body of handleAddPeerMsg. */
    method LetIn(p: PeerInfo, env: Env) returns (accepted: bool, dropped: set<int>, ghost victim: int)
      modifies this
      ensures VictimOk(old(View()), victim)
      ensures Added(View(), accepted, dropped) == HandleAdd(old(View()), p, env, victim)
    {
      var evicted, v := PickVictim();
      victim := v;
      accepted, dropped := false, {};
      if p.id !in env.connected {
        return;
      }
      dropped := {p.id};
      if env.undesired || env.shutdown || p.host.None? {
        return;
      }
      if p.host.value in banned {
        if env.now < banned[p.host.value] {
          return;
        }
        banned := banned - {p.host.value};
      }
      assert View() == Pardoned(old(View()), p);
      assert forall id :: Evictable(View(), id) == Evictable(old(View()), id);
      var over := CheckLimits(p, env);
      if over {
        return;
      }
      if |inboundPeers| + |outboundPeers| + |persistentPeers| >= env.maxPeers {
        if p.inbound || !evicted {
          return;
        }
        dropped := {v};
      } else {
        dropped := {};
      }
      Enter(p);
      accepted := true;
    }

    /** handleAddPeerMsg: let a peer in if it is admissible, and otherwise turn it away. */
    method HandleAddPeerMsg(p: PeerInfo, env: Env) returns (accepted: bool, dropped: set<int>, ghost victim: int)
      modifies this
      ensures VictimOk(old(View()), victim)
      ensures Added(View(), accepted, dropped) == HandleAdd(old(View()), p, env, victim)
      ensures accepted <==> Admissible(old(View()), p, env)
    {
      accepted, dropped, victim := LetIn(p, env);
      AcceptedIff(old(View()), p, env, victim);
    }

    /** handleDonePeerMsg, as far as the tables go. */
    method HandleDonePeerMsg(p: PeerInfo)
      modifies this
      ensures View() == HandleDone(old(View()), p)
      ensures inboundPeers == if p.inbound && !p.persistent then old(inboundPeers) - {p.id} else old(inboundPeers)
      ensures outboundPeers == if p.inbound || p.persistent then old(outboundPeers) else old(outboundPeers) - {p.id}
      ensures persistentPeers == if p.persistent then old(persistentPeers) - {p.id} else old(persistentPeers)
      ensures banned == old(banned)
    {
      if p.persistent {
        if p.id in persistentPeers {
          UntrackOutbound(p);
          persistentPeers := persistentPeers - {p.id};
        }
      } else if p.inbound {
        if p.id in inboundPeers {
          UntrackOutbound(p);
          inboundPeers := inboundPeers - {p.id};
        }
      } else if p.id in outboundPeers {
        UntrackOutbound(p);
        outboundPeers := outboundPeers - {p.id};
      }
    }

    /** The search of disconnectPeer: some peer of the table that the comparison accepts, if any. */
    static method FindPeer(m: map<int, PeerInfo>, cmp: PeerInfo -> bool) returns (r: Option<int>)
      ensures r.Some? ==> r.value in m && cmp(m[r.value])
      ensures r.None? ==> forall id :: id in m ==> !cmp(m[id])
    {
      var todo := m.Keys;
      while todo != {}
        invariant todo <= m.Keys && forall id :: id in m && id !in todo ==> !cmp(m[id])
      {
        var id := Next(todo);
        if cmp(m[id]) {
          return Some(id);
        }
        todo := todo - {id};
      }
      return None;
    }

    /** The removenode query: take out one matching persistent peer. */
    method RemoveNode(cmp: PeerInfo -> bool) returns (dropped: Option<int>)
      modifies this
      ensures dropped.Some? ==>
        && dropped.value in old(persistentPeers) && cmp(old(persistentPeers)[dropped.value])
        && View() == DropPersistent(old(View()), dropped.value)
        && persistentPeers == old(persistentPeers) - {dropped.value}
      ensures inboundPeers == old(inboundPeers) && outboundPeers == old(outboundPeers) && banned == old(banned)
      ensures dropped.None? ==>
        View() == old(View()) && forall id :: id in persistentPeers ==> !cmp(persistentPeers[id])
    {
      dropped := FindPeer(persistentPeers, cmp);
      if dropped.Some? {
        UntrackOutbound(persistentPeers[dropped.value]);
        persistentPeers := persistentPeers - {dropped.value};
      }
    }

    /** disconnectPeer on the outbound table. */
    method DropOneOutbound(cmp: PeerInfo -> bool, ghost t: Tables, ghost ids: seq<int>) returns (r: Option<int>)
      requires View() == DropAllOutbound(t, ids)
      modifies this
      ensures r.Some? ==>
        && r.value in old(outboundPeers) && cmp(old(outboundPeers)[r.value]) && |outboundPeers| < |old(outboundPeers)|
        && View() == DropAllOutbound(t, ids + [r.value])
      ensures r.None? ==> View() == old(View()) && forall id :: id in outboundPeers ==> !cmp(outboundPeers[id])
    {
      r := FindPeer(outboundPeers, cmp);
      if r.Some? {
        assert (ids + [r.value])[..|ids|] == ids;
        UntrackOutbound(outboundPeers[r.value]);
        outboundPeers := outboundPeers - {r.value};
      }
    }

    /** The outbound part of the disconnectnode query: take out matching peers until none is found. */
    method DropMatching(cmp: PeerInfo -> bool) returns (ids: seq<int>)
      modifies this
      ensures View() == DropAllOutbound(old(View()), ids)
      ensures forall id :: id in ids <==> id in old(outboundPeers) && cmp(old(outboundPeers)[id])
    {
      ids := [];
      ghost var t := View();
      var found := DropOneOutbound(cmp, t, ids);
      while found.Some?
        invariant View() == DropAllOutbound(t, if found.Some? then ids + [found.value] else ids)
        invariant found.Some? ==> found.value in t.outbound && cmp(t.outbound[found.value])
        invariant found.None? ==> forall id :: id in outboundPeers ==> !cmp(outboundPeers[id])
        invariant forall id :: id in ids ==> id in t.outbound && cmp(t.outbound[id])
        decreases |outboundPeers|, found.Some?
      {
        ids := ids + [found.value];
        DropAllMembers(t, ids);
        found := DropOneOutbound(cmp, t, ids);
      }
      DropAllMembers(t, ids);
      forall id | id in t.outbound && cmp(t.outbound[id]) ensures id in ids {
        assert id in ids || id in outboundPeers;
      }
    }

    /** The disconnectnode query: one matching inbound peer, or else every matching outbound peer. */
    method DisconnectNode(cmp: PeerInfo -> bool) returns (inbound: Option<int>, ids: seq<int>)
      modifies this
      ensures inbound.Some? ==>
        && inbound.value in old(inboundPeers) && cmp(old(inboundPeers)[inbound.value])
        && ids == [] && View() == DropInbound(old(View()), inbound.value)
        && inboundPeers == old(inboundPeers) - {inbound.value} && outboundPeers == old(outboundPeers)
      ensures inbound.None? ==>
        && (forall id :: id in old(inboundPeers) ==> !cmp(old(inboundPeers)[id]))
        && (forall id :: id in ids <==> id in old(outboundPeers) && cmp(old(outboundPeers)[id]))
        && View() == DropAllOutbound(old(View()), ids)
        && inboundPeers == old(inboundPeers) && outboundPeers == old(outboundPeers) - set id | id in ids
      ensures persistentPeers == old(persistentPeers) && banned == old(banned)
    {
      ids := [];
      inbound := FindPeer(inboundPeers, cmp);
      if inbound.Some? {
        inboundPeers := inboundPeers - {inbound.value};
      } else {
        ids := DropMatching(cmp);
        DropAllMembers(old(View()), ids);
      }
    }
  }
}
