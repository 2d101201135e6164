/**
 Who is still connected: in every interleaving, a connected peer whose add has been handled, and whose done
 has not, is in the tables of a server that is running.  All others have been asked to leave.
 */
module PeerPresence {
  import opened PeerTables
  import opened PeerLifecycle

  predicate Placed(s: State, p: Pid)
    requires p in s.peers
  {
    s.peers[p].connected && s.peers[p].handled == [PeerAdd] ==> s.running && s.peers[p].info.id in Members(s.tables)
  }

  predicate AllPlaced(s: State) {
    forall p :: p in s.peers ==> Placed(s, p)
  }

  /** A peer as far as this goes: gone, or unchanged. */
  predicate NotMore(p: Peer, p': Peer) {
    p'.info.id == p.info.id && p'.handled == p.handled && (p'.connected ==> p.connected)
  }

  /** No peer is back, and whoever is out of the tables now has been disconnected. */
  lemma FewerPeers(s: State, s': State)
    requires AllPlaced(s) && s'.running == s.running && s'.peers.Keys == s.peers.Keys
    requires forall p :: p in s.peers ==> NotMore(s.peers[p], s'.peers[p])
    requires forall p :: p in s.peers && s'.peers[p].connected && s.peers[p].info.id in Members(s.tables) ==>
      s.peers[p].info.id in Members(s'.tables)
    ensures AllPlaced(s')
  {
    forall p | p in s'.peers ensures Placed(s', p) {
      assert Placed(s, p) && NotMore(s.peers[p], s'.peers[p]);
    }
  }

  /** A step of one peer's own goroutines. */
  lemma OnePeer(s: State, s': State, pid: Pid)
    requires AllPlaced(s) && pid in s'.peers && s'.running == s.running && s'.tables == s.tables
    requires s'.peers == s.peers[pid := s'.peers[pid]] && Placed(s', pid)
    ensures AllPlaced(s')
  {
    forall p | p in s'.peers ensures Placed(s', p) {
      if p != pid {
        assert Placed(s, p);
      }
    }
  }

  predicate IsLocal(a: Step) {
    || a.Connect? || a.Version? || a.VerAckRelease? || a.VerAckClose? || a.Disconnect? || a.SelectVerAck?
    || a.NoteAdded? || a.SelectDone? || a.Release? || a.SendDone?
  }

  lemma LocalPlaces(s: State, a: Step)
    requires PeerLifecycle.Inv(s) && AllPlaced(s) && Enabled(s, a) && IsLocal(a)
    ensures AllPlaced(PeerLifecycle.Next(s, a))
  {
    if !a.Connect? {
      assert Placed(s, a.pid);
      assert PeerInv(s.peers[a.pid], Pending(s.queue, a.pid), s.running);
    }
    OnePeer(s, PeerLifecycle.Next(s, a), a.pid);
  }

  /** Two peers with ids are told apart by them. */
  lemma OwnId(s: State, p: Pid, q: Pid)
    requires PeerLifecycle.Inv(s) && p in s.peers && q in s.peers && p != q && s.peers[p].handled == [PeerAdd]
    ensures s.peers[p].info.id > 0 && s.peers[p].info.id != s.peers[q].info.id
  {
    var peer, pending := s.peers[p], Pending(s.queue, p);
    assert PeerInv(peer, pending, s.running);
    assert (peer.handled + peer.drained + pending)[0] == PeerAdd;
  }

  /** The add of a peer. */
  lemma AddPlaces(s: State, env: Env, victim: int)
    requires PeerLifecycle.Inv(s) && AllPlaced(s) && Enabled(s, Handle(env, victim)) && s.queue[0].action.PeerAdd?
    ensures AllPlaced(HandleNext(s, env, victim))
  {
    var pid, s' := s.queue[0].pid, HandleNext(s, env, victim);
    var info := s.peers[pid].info;
    AddOutcome(s.tables, info, env, victim);
    AddLeaves(s.tables, info, env, victim);
    forall p | p in s'.peers ensures Placed(s', p) {
      assert Placed(s, p);
      if p == pid && s.peers[p].connected {
        assert info.id in env.connected;
      }
    }
  }

  lemma DonePlaces(s: State, env: Env, victim: int)
    requires PeerLifecycle.Inv(s) && AllPlaced(s) && Enabled(s, Handle(env, victim)) && s.queue[0].action.PeerDone?
    ensures AllPlaced(HandleNext(s, env, victim))
  {
    var pid, s' := s.queue[0].pid, HandleNext(s, env, victim);
    forall p | p in s'.peers ensures Placed(s', p) {
      assert Placed(s, p);
      if p == pid {
        assert s'.peers[p].handled[|s'.peers[p].handled| - 1] == PeerDone;
      } else if s.peers[p].handled == [PeerAdd] {
        OwnId(s, p, pid);
      }
    }
  }

  lemma RemovalPlaces(s: State, ids: set<int>, t: Tables)
    requires AllPlaced(s) && Members(s.tables) - ids <= Members(t)
    ensures AllPlaced(s.(tables := t, peers := CutOff(s.peers, ids)))
  {
    FewerPeers(s, s.(tables := t, peers := CutOff(s.peers, ids)));
  }

  lemma OperatorPlaces(s: State, a: Step)
    requires AllPlaced(s) && Enabled(s, a) && (a.RemoveNode? || a.DisconnectInbound? || a.DisconnectOutbound?)
    ensures AllPlaced(PeerLifecycle.Next(s, a))
  {
    match a
    case RemoveNode(id) => RemovalPlaces(s, {id}, DropPersistent(s.tables, id));
    case DisconnectInbound(id) => RemovalPlaces(s, {id}, DropInbound(s.tables, id));
    case DisconnectOutbound(ids) =>
      DropAllMembers(s.tables, ids);
      RemovalPlaces(s, (set id | id in ids), DropAllOutbound(s.tables, ids));
  }

  lemma QuitPlaces(s: State)
    requires AllPlaced(s) && s.running
    ensures AllPlaced(PeerLifecycle.Next(s, Quit))
  {
    forall p | p in s.peers ensures Placed(PeerLifecycle.Next(s, Quit), p) {
      assert Placed(s, p);
    }
  }

  lemma DrainPlaces(s: State)
    requires AllPlaced(s) && Enabled(s, Drain)
    ensures AllPlaced(PeerLifecycle.Next(s, Drain))
  {
    assert Placed(s, s.queue[0].pid);
    OnePeer(s, PeerLifecycle.Next(s, Drain), s.queue[0].pid);
  }

  lemma NextPlaces(s: State, a: Step)
    requires PeerLifecycle.Inv(s) && AllPlaced(s) && Enabled(s, a)
    ensures AllPlaced(PeerLifecycle.Next(s, a))
  {
    match a
    case Handle(env, victim) =>
      if s.queue[0].action.PeerAdd? {
        AddPlaces(s, env, victim);
      } else {
        DonePlaces(s, env, victim);
      }
    case RemoveNode(_) => OperatorPlaces(s, a);
    case DisconnectInbound(_) => OperatorPlaces(s, a);
    case DisconnectOutbound(_) => OperatorPlaces(s, a);
    case Ban(host, until) => FewerPeers(s, PeerLifecycle.Next(s, a));
    case Quit => QuitPlaces(s);
    case Drain => DrainPlaces(s);
    case _ => LocalPlaces(s, a);
  }

  lemma {:induction false} RunPlaces(run: seq<State>, steps: seq<Step>, i: nat)
    requires IsRun(run, steps) && i < |run|
    ensures AllPlaced(run[i])
  {
    if i == 0 {
    } else {
      RunPlaces(run, steps, i - 1);
      RunKeepsInv(run, steps, i - 1);
      assert Link(run, steps, i - 1);
      NextPlaces(run[i - 1], steps[i - 1]);
    }
  }

  /** In every state of every run: a peer whose add has been handled and whose done has not, if it is still
      connected, is in the tables, and the server is running.  A peer that was turned away, made to leave by
      an operator or present at shutdown has been disconnected. */
  lemma ConnectedIsPlaced(run: seq<State>, steps: seq<Step>, i: nat, pid: Pid)
    requires IsRun(run, steps) && i < |run| && pid in run[i].peers
    requires run[i].peers[pid].connected && run[i].peers[pid].handled == [PeerAdd]
    ensures run[i].running && run[i].peers[pid].info.id in Members(run[i].tables)
  {
    RunPlaces(run, steps, i);
    assert Placed(run[i], pid);
  }
}
