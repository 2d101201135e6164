/**
 The life of every peer: one lifecycle goroutine per peer, the peer's own message goroutine, the
 operator's queries, and the single event loop that handles the lifecycle events in the order they were
 sent.  A state is what all of them share; a run is any interleaving of their steps.
 */
module PeerLifecycle {
  import opened Common
  import opened PeerTables

  type Pid = nat

  datatype Action = PeerAdd | PeerDone

  datatype Event = Event(action: Action, pid: Pid)

  datatype SyncCall = NewPeer(pid: Pid) | DonePeer(pid: Pid)

  /** Where a peer's lifecycle goroutine stands. */
  datatype Phase =
    | Awaiting        // in the select on the verack and the disconnect
    | AddSent         // has sent the add event
    | AddNoted        // has set the peerAdded flag
    | AddSkipped      // saw the disconnect first
    | Released        // has released the handshake slot
    | Finished        // has sent the done event

  /** Where the handling of a peer's verack stands: the slot is released first, the channel closed next. */
  datatype VerAck = NoVerAck | SlotGiven | ChannelClosed

  /** A peer, with the history of its events: those handled, and those drained unhandled at shutdown. */
  datatype Peer = Peer(
    info: PeerInfo, connected: bool, verAck: VerAck, phase: Phase, peerAdded: bool, sentAdd: bool,
    holdsSlot: bool, releaseDone: bool, releases: nat, handled: seq<Action>, drained: seq<Action>)

  datatype State = State(
    peers: map<Pid, Peer>, queue: seq<Event>, tables: Tables, lastId: nat, calls: seq<SyncCall>, running: bool)

  const INIT: State := State(map[], [], EMPTY, 0, [], true)

  // ---------- Steps ----------

  datatype Step =
    | Connect(pid: Pid, info: PeerInfo, holdsSlot: bool)
    | Version(pid: Pid)
    | VerAckRelease(pid: Pid)
    | VerAckClose(pid: Pid)
    | Disconnect(pid: Pid)
    | SelectVerAck(pid: Pid)
    | NoteAdded(pid: Pid)
    | SelectDone(pid: Pid)
    | Release(pid: Pid)
    | SendDone(pid: Pid)
    | Handle(env: Env, victim: int)
    | RemoveNode(id: int)
    | DisconnectInbound(id: int)
    | DisconnectOutbound(ids: seq<int>)
    | Ban(host: string, until: int)
    | Quit
    | Drain

  /** Whether a step can be taken. */
  predicate Enabled(s: State, a: Step) {
    match a
    case Connect(pid, info, _) => pid !in s.peers && info.id == 0 && !(info.inbound && info.persistent)
    case Version(pid) => pid in s.peers && s.peers[pid].info.id == 0
    case VerAckRelease(pid) => pid in s.peers && s.peers[pid].info.id > 0 && s.peers[pid].verAck.NoVerAck?
    case VerAckClose(pid) => pid in s.peers && s.peers[pid].verAck.SlotGiven?
    case Disconnect(pid) => pid in s.peers
    case SelectVerAck(pid) => pid in s.peers && s.peers[pid].phase.Awaiting? && s.peers[pid].verAck.ChannelClosed?
    case NoteAdded(pid) => pid in s.peers && s.peers[pid].phase.AddSent?
    case SelectDone(pid) => pid in s.peers && s.peers[pid].phase.Awaiting? && !s.peers[pid].connected
    case Release(pid) => pid in s.peers && (s.peers[pid].phase.AddNoted? || s.peers[pid].phase.AddSkipped?)
    case SendDone(pid) => pid in s.peers && s.peers[pid].phase.Released? && !s.peers[pid].connected
    case Handle(env, victim) =>
      && s.running && s.queue != [] && s.queue[0].pid in s.peers
      && VictimOk(s.tables, victim) && env.connected == ConnectedIds(s.peers)
    case RemoveNode(id) => s.running && id in s.tables.persistent
    case DisconnectInbound(id) => s.running && id in s.tables.inbound
    case DisconnectOutbound(ids) => s.running && forall id :: id in ids ==> id in s.tables.outbound
    case Ban(_, _) => s.running
    case Quit => s.running
    case Drain => !s.running && s.queue != [] && s.queue[0].pid in s.peers
  }

  function ConnectedIds(peers: map<Pid, Peer>): set<int> {
    set p | p in peers && peers[p].connected :: peers[p].info.id
  }

  /** Release the handshake slot, once. */
  function ReleaseSlot(p: Peer): Peer {
    if p.releaseDone then p
    else p.(releaseDone := true, releases := if p.holdsSlot then p.releases + 1 else p.releases)
  }

  /** Disconnect the peers whose ids are in `ids`. */
  function CutOff(peers: map<Pid, Peer>, ids: set<int>): map<Pid, Peer> {
    map p | p in peers :: if peers[p].info.id in ids then peers[p].(connected := false) else peers[p]
  }

  function WithPeer(s: State, pid: Pid, p: Peer): State {
    s.(peers := s.peers[pid := p])
  }

  /** The event loop takes the next event. */
  function HandleNext(s: State, env: Env, victim: int): State
    requires s.queue != [] && s.queue[0].pid in s.peers && VictimOk(s.tables, victim)
  {
    var pid := s.queue[0].pid;
    var p := s.peers[pid];
    match s.queue[0].action
    case PeerAdd =>
      var r := HandleAdd(s.tables, p.info, env, victim);
      s.(queue := s.queue[1..], tables := r.tables,
         peers := CutOff(s.peers[pid := p.(handled := p.handled + [PeerAdd])], r.dropped),
         calls := if r.accepted then s.calls + [NewPeer(pid)] else s.calls)
    case PeerDone =>
      s.(queue := s.queue[1..], tables := HandleDone(s.tables, p.info),
         peers := s.peers[pid := p.(handled := p.handled + [PeerDone])],
         calls := if p.peerAdded then s.calls + [DonePeer(pid)] else s.calls)
  }

  function Next(s: State, a: Step): State
    requires Enabled(s, a)
  {
    match a
    case Connect(pid, info, holdsSlot) =>
      WithPeer(s, pid, Peer(info, true, NoVerAck, Awaiting, false, false, holdsSlot, false, 0, [], []))
    case Version(pid) => Identified(s, pid)
    case VerAckRelease(pid) => WithPeer(s, pid, ReleaseSlot(s.peers[pid]).(verAck := SlotGiven))
    case VerAckClose(pid) => WithPeer(s, pid, s.peers[pid].(verAck := ChannelClosed))
    case Disconnect(pid) => WithPeer(s, pid, s.peers[pid].(connected := false))
    case SelectVerAck(pid) =>
      WithPeer(s, pid, s.peers[pid].(phase := AddSent, sentAdd := true)).(queue := s.queue + [Event(PeerAdd, pid)])
    case NoteAdded(pid) => WithPeer(s, pid, s.peers[pid].(phase := AddNoted, peerAdded := true))
    case SelectDone(pid) => WithPeer(s, pid, s.peers[pid].(phase := AddSkipped))
    case Release(pid) => WithPeer(s, pid, ReleaseSlot(s.peers[pid]).(phase := Released))
    case SendDone(pid) =>
      WithPeer(s, pid, s.peers[pid].(phase := Finished)).(queue := s.queue + [Event(PeerDone, pid)])
    case Handle(env, victim) => HandleNext(s, env, victim)
    case RemoveNode(id) => s.(tables := DropPersistent(s.tables, id), peers := CutOff(s.peers, {id}))
    case DisconnectInbound(id) => s.(tables := DropInbound(s.tables, id), peers := CutOff(s.peers, {id}))
    case DisconnectOutbound(ids) =>
      s.(tables := DropAllOutbound(s.tables, ids), peers := CutOff(s.peers, set id | id in ids))
    case Ban(host, until) => s.(tables := s.tables.(banned := s.tables.banned[host := until]))
    case Quit => s.(running := false, peers := CutOff(s.peers, Members(s.tables)))
    case Drain =>
      var e := s.queue[0];
      WithPeer(s, e.pid, s.peers[e.pid].(drained := s.peers[e.pid].drained + [e.action])).(queue := s.queue[1..])
  }

  // ---------- The invariant ----------

  /** The events of one peer still in the queue, in order. */
  function Pending(queue: seq<Event>, pid: Pid): seq<Action> {
    if queue == [] then []
    else (if queue[0].pid == pid then [queue[0].action] else []) + Pending(queue[1..], pid)
  }

  /** The events a peer's goroutine has sent. */
  function Sent(p: Peer): seq<Action> {
    (if p.sentAdd then [PeerAdd] else []) + (if p.phase.Finished? then [PeerDone] else [])
  }

  /** What holds of one peer, given the events it still has in the queue. */
  predicate PeerInv(p: Peer, pending: seq<Action>, running: bool) {
    && p.handled + p.drained + pending == Sent(p)
    && (running ==> p.drained == [])
    && (p.sentAdd ==> p.info.id > 0)
    && (p.phase.Awaiting? || p.phase.AddSkipped? ==> !p.sentAdd)
    && (p.phase.AddSent? || p.phase.AddNoted? ==> p.sentAdd)
    && (p.peerAdded <==> p.sentAdd && !p.phase.AddSent?)
    && (!p.verAck.NoVerAck? ==> p.info.id > 0 && p.releaseDone)
    && (p.phase.Released? || p.phase.Finished? ==> p.releaseDone)
    && p.releases == (if p.releaseDone && p.holdsSlot then 1 else 0)
    && !(p.info.inbound && p.info.persistent)
  }

  /** Peer `pid` is the table entry `id`, and its add but not its done has been handled. */
  predicate IsMember(t: Tables, peers: map<Pid, Peer>, pid: Pid, id: int) {
    && pid in peers && peers[pid].info.id == id && peers[pid].handled == [PeerAdd]
    && id in ListOf(t, peers[pid].info) && ListOf(t, peers[pid].info)[id] == peers[pid].info
  }

  /** A peer is in the tables only under its own id, and only between its add and its done. */
  ghost predicate MemberInv(t: Tables, peers: map<Pid, Peer>) {
    forall id :: id in Members(t) ==> exists pid :: IsMember(t, peers, pid, id)
  }

  predicate IdsInv(s: State) {
    && (forall p :: p in s.peers ==> 0 <= s.peers[p].info.id <= s.lastId)
    && (forall p, q :: p in s.peers && q in s.peers && p != q && s.peers[p].info.id > 0 ==>
          s.peers[p].info.id != s.peers[q].info.id)
  }

  /** The calls to the sync manager agree with the events handled. */
  predicate CallsInv(s: State) {
    && (forall i :: 0 <= i < |s.calls| ==>
          && s.calls[i].pid in s.peers
          && (s.calls[i].NewPeer? ==> PeerAdd in s.peers[s.calls[i].pid].handled)
          && (s.calls[i].DonePeer? ==>
                PeerDone in s.peers[s.calls[i].pid].handled && s.peers[s.calls[i].pid].sentAdd))
    && (forall i, j :: 0 <= i < j < |s.calls| && s.calls[i].pid == s.calls[j].pid ==>
          s.calls[i].NewPeer? && s.calls[j].DonePeer?)
  }

  predicate QueueInv(s: State) {
    && (forall e :: e in s.queue ==> e.pid in s.peers)
    && (forall p :: p in s.peers ==> PeerInv(s.peers[p], Pending(s.queue, p), s.running))
  }

  ghost predicate Inv(s: State) {
    && QueueInv(s)
    && PeerTables.Inv(s.tables) && MemberInv(s.tables, s.peers) && IdsInv(s) && CallsInv(s)
  }

  // ---------- Queue lemmas ----------

  lemma {:induction false} PendingAppend(queue: seq<Event>, e: Event, pid: Pid)
    ensures Pending(queue + [e], pid) == Pending(queue, pid) + (if e.pid == pid then [e.action] else [])
  {
    if queue == [] {
      assert (queue + [e])[1..] == [];
    } else {
      var first := if queue[0].pid == pid then [queue[0].action] else [];
      var added := if e.pid == pid then [e.action] else [];
      assert (queue + [e])[0] == queue[0] && (queue + [e])[1..] == queue[1..] + [e];
      PendingAppend(queue[1..], e, pid);
      assert first + (Pending(queue[1..], pid) + added) == first + Pending(queue[1..], pid) + added;
    }
  }

  lemma {:induction false} PendingStranger(queue: seq<Event>, pid: Pid)
    requires forall e :: e in queue ==> e.pid != pid
    ensures Pending(queue, pid) == []
  {
    if queue == [] {
    } else {
      PendingStranger(queue[1..], pid);
    }
  }

  // ---------- Frames ----------

  /** Peers that keep what the tables and the calls know of them. */
  predicate SameRecord(peers: map<Pid, Peer>, peers': map<Pid, Peer>) {
    && peers.Keys == peers'.Keys
    && forall p :: p in peers ==>
        && peers'[p].info == peers[p].info && peers'[p].handled == peers[p].handled
        && (peers[p].sentAdd ==> peers'[p].sentAdd)
  }

  lemma MemberFrame(t: Tables, peers: map<Pid, Peer>, peers': map<Pid, Peer>)
    requires MemberInv(t, peers)
    requires forall p :: p in peers && peers[p].info.id > 0 ==>
      p in peers' && peers'[p].info == peers[p].info && peers'[p].handled == peers[p].handled
    requires Sorted(t)
    ensures MemberInv(t, peers')
  {
    forall id | id in Members(t) ensures exists pid :: IsMember(t, peers', pid, id) {
      var pid :| IsMember(t, peers, pid, id);
      assert IsMember(t, peers', pid, id);
    }
  }

  lemma CallsFrame(s: State, s': State)
    requires CallsInv(s) && s'.calls == s.calls
    requires forall p :: p in s.peers ==>
      p in s'.peers && s'.peers[p].handled == s.peers[p].handled && (s.peers[p].sentAdd ==> s'.peers[p].sentAdd)
    ensures CallsInv(s')
  {
  }

  lemma RecordFrame(s: State, s': State)
    requires PeerTables.Inv(s.tables) && MemberInv(s.tables, s.peers) && IdsInv(s) && CallsInv(s)
    requires SameRecord(s.peers, s'.peers)
    requires s'.tables == s.tables && s'.calls == s.calls && s'.lastId == s.lastId
    ensures PeerTables.Inv(s'.tables) && MemberInv(s'.tables, s'.peers) && IdsInv(s') && CallsInv(s')
  {
    CallsFrame(s, s');
    MemberFrame(s.tables, s.peers, s'.peers);
  }

  /** A step that changes only how one peer stands. */
  lemma LocalKeepsInv(s: State, pid: Pid, p: Peer)
    requires Inv(s) && pid in s.peers && PeerInv(p, Pending(s.queue, pid), s.running)
    requires p.info == s.peers[pid].info && p.handled == s.peers[pid].handled && p.sentAdd == s.peers[pid].sentAdd
    ensures Inv(WithPeer(s, pid, p))
  {
    RecordFrame(s, WithPeer(s, pid, p));
  }

  lemma CutOffQueue(s: State, ids: set<int>)
    requires QueueInv(s)
    ensures QueueInv(s.(peers := CutOff(s.peers, ids))) && SameRecord(s.peers, CutOff(s.peers, ids))
  {
    forall p | p in s.peers ensures PeerInv(CutOff(s.peers, ids)[p], Pending(s.queue, p), s.running) {
      assert PeerInv(s.peers[p], Pending(s.queue, p), s.running);
    }
  }

  lemma CutOffKeepsInv(s: State, ids: set<int>)
    requires Inv(s)
    ensures Inv(s.(peers := CutOff(s.peers, ids)))
  {
    CutOffQueue(s, ids);
    RecordFrame(s, s.(peers := CutOff(s.peers, ids)));
  }

  // ---------- Each kind of step ----------

  lemma ConnectQueue(s: State, pid: Pid, p: Peer)
    requires QueueInv(s) && pid !in s.peers && PeerInv(p, [], s.running)
    ensures QueueInv(WithPeer(s, pid, p))
  {
    PendingStranger(s.queue, pid);
  }

  lemma ConnectIds(s: State, pid: Pid, p: Peer)
    requires IdsInv(s) && pid !in s.peers && p.info.id == 0
    ensures IdsInv(WithPeer(s, pid, p))
  {
  }

  lemma ConnectKeepsInv(s: State, pid: Pid, p: Peer)
    requires Inv(s) && pid !in s.peers && p.info.id == 0 && PeerInv(p, [], s.running)
    ensures Inv(WithPeer(s, pid, p))
  {
    var s' := WithPeer(s, pid, p);
    ConnectQueue(s, pid, p);
    ConnectIds(s, pid, p);
    CallsFrame(s, s');
    MemberFrame(s.tables, s.peers, s'.peers);
  }

  /** The state once peer `pid` has its id. */
  function Identified(s: State, pid: Pid): State
    requires pid in s.peers
  {
    WithPeer(s, pid, s.peers[pid].(info := s.peers[pid].info.(id := s.lastId + 1))).(lastId := s.lastId + 1)
  }

  lemma VersionQueue(s: State, pid: Pid)
    requires QueueInv(s) && pid in s.peers
    ensures QueueInv(Identified(s, pid))
  {
    var s' := Identified(s, pid);
    forall p | p in s'.peers ensures PeerInv(s'.peers[p], Pending(s'.queue, p), s'.running) {
      assert PeerInv(s.peers[p], Pending(s.queue, p), s.running);
    }
  }

  lemma VersionIds(s: State, pid: Pid)
    requires IdsInv(s) && pid in s.peers
    ensures IdsInv(Identified(s, pid))
  {
  }

  lemma VersionKeepsInv(s: State, pid: Pid)
    requires Inv(s) && pid in s.peers && s.peers[pid].info.id == 0
    ensures Inv(Identified(s, pid))
  {
    var s' := Identified(s, pid);
    VersionQueue(s, pid);
    VersionIds(s, pid);
    CallsFrame(s, s');
    MemberFrame(s.tables, s.peers, s'.peers);
  }

  lemma EnqueueQueue(s: State, pid: Pid, p: Peer, action: Action)
    requires QueueInv(s) && pid in s.peers && PeerInv(p, Pending(s.queue, pid) + [action], s.running)
    ensures QueueInv(WithPeer(s, pid, p).(queue := s.queue + [Event(action, pid)]))
  {
    var s' := WithPeer(s, pid, p).(queue := s.queue + [Event(action, pid)]);
    forall q | q in s'.peers ensures PeerInv(s'.peers[q], Pending(s'.queue, q), s'.running) {
      PendingAppend(s.queue, Event(action, pid), q);
      if q != pid { assert Pending(s'.queue, q) == Pending(s.queue, q); }
    }
  }

  lemma EnqueueKeepsInv(s: State, pid: Pid, p: Peer, action: Action)
    requires Inv(s) && pid in s.peers && PeerInv(p, Pending(s.queue, pid) + [action], s.running)
    requires p.info == s.peers[pid].info && p.handled == s.peers[pid].handled
    requires s.peers[pid].sentAdd ==> p.sentAdd
    ensures Inv(WithPeer(s, pid, p).(queue := s.queue + [Event(action, pid)]))
  {
    EnqueueQueue(s, pid, p, action);
    RecordFrame(s, WithPeer(s, pid, p).(queue := s.queue + [Event(action, pid)]));
  }

  // ---------- The event loop ----------

  lemma DequeuePending(queue: seq<Event>, pid: Pid)
    requires queue != []
    ensures Pending(queue, pid) == (if queue[0].pid == pid then [queue[0].action] else []) + Pending(queue[1..], pid)
  {
  }

  /** The next event of a running loop is the peer's first unhandled one. */
  lemma NextEvent(s: State)
    requires Inv(s) && s.running && s.queue != []
    ensures
      var p := s.peers[s.queue[0].pid];
      && p.drained == [] && (s.queue[0].action.PeerAdd? ==> p.handled == [] && p.sentAdd)
      && (s.queue[0].action.PeerDone? ==>
            p.handled == (if p.sentAdd then [PeerAdd] else []) && p.peerAdded == p.sentAdd)
  {
    var e := s.queue[0];
    assert e in s.queue;
    DequeuePending(s.queue, e.pid);
    var p := s.peers[e.pid];
    assert PeerInv(p, Pending(s.queue, e.pid), s.running);
    assert Sent(p)[|p.handled|] == e.action;
    assert p.handled == Sent(p)[..|p.handled|];
  }

  /** Moving the next event from the queue to its peer's history keeps the queue in order. */
  lemma HandledQueue(s: State, p: Peer)
    requires QueueInv(s) && s.running && s.queue != []
    requires p == s.peers[s.queue[0].pid].(handled := s.peers[s.queue[0].pid].handled + [s.queue[0].action])
    ensures QueueInv(WithPeer(s, s.queue[0].pid, p).(queue := s.queue[1..]))
  {
    var e := s.queue[0];
    assert e in s.queue;
    var s' := WithPeer(s, e.pid, p).(queue := s.queue[1..]);
    forall q | q in s'.peers ensures PeerInv(s'.peers[q], Pending(s'.queue, q), s'.running) {
      DequeuePending(s.queue, q);
      assert PeerInv(s.peers[q], Pending(s.queue, q), s.running);
      if q == e.pid {
        MoveOne(s.peers[q].handled, s.peers[q].drained, e.action, Pending(s'.queue, q));
      } else {
        assert Pending(s'.queue, q) == Pending(s.queue, q);
      }
    }
  }

  lemma MoveOne(handled: seq<Action>, drained: seq<Action>, a: Action, rest: seq<Action>)
    ensures handled + (drained + [a]) + rest == handled + drained + ([a] + rest)
    ensures drained == [] ==> (handled + [a]) + drained + rest == handled + drained + ([a] + rest)
  {
  }

  lemma DrainedQueue(s: State, p: Peer)
    requires QueueInv(s) && !s.running && s.queue != []
    requires p == s.peers[s.queue[0].pid].(drained := s.peers[s.queue[0].pid].drained + [s.queue[0].action])
    ensures QueueInv(WithPeer(s, s.queue[0].pid, p).(queue := s.queue[1..]))
  {
    var e := s.queue[0];
    assert e in s.queue;
    var s' := WithPeer(s, e.pid, p).(queue := s.queue[1..]);
    forall q | q in s'.peers ensures PeerInv(s'.peers[q], Pending(s'.queue, q), s'.running) {
      DequeuePending(s.queue, q);
      assert PeerInv(s.peers[q], Pending(s.queue, q), s.running);
      if q == e.pid {
        MoveOne(s.peers[q].handled, s.peers[q].drained, e.action, Pending(s'.queue, q));
      } else {
        assert Pending(s'.queue, q) == Pending(s.queue, q);
      }
    }
  }

  /** Ids identify peers: a table entry with the id of `pid` is `pid`. */
  lemma MemberIsPeer(s: State, pid: Pid, id: int)
    requires Inv(s) && pid in s.peers && s.peers[pid].info.id == id && id in Members(s.tables)
    ensures IsMember(s.tables, s.peers, pid, id)
  {
    var q :| IsMember(s.tables, s.peers, q, id);
  }

  predicate AgreeAt(m: map<int, PeerInfo>, m': map<int, PeerInfo>, id: int) {
    id in m ==> id in m' && m'[id] == m[id]
  }

  /** A table entry that neither the tables nor its peer have changed is still a member. */
  lemma StillMember(t: Tables, t': Tables, peers: map<Pid, Peer>, peers': map<Pid, Peer>, id: int)
    requires MemberInv(t, peers) && id in Members(t)
    requires AgreeAt(t.inbound, t'.inbound, id) && AgreeAt(t.outbound, t'.outbound, id)
    requires AgreeAt(t.persistent, t'.persistent, id)
    requires forall q :: q in peers && peers[q].info.id == id ==>
      q in peers' && peers'[q].info == peers[q].info && peers'[q].handled == peers[q].handled
    ensures exists q :: IsMember(t', peers', q, id)
  {
    var q :| IsMember(t, peers, q, id);
    assert IsMember(t', peers', q, id);
  }

  lemma MembersAfterInsert(s: State, pid: Pid, peers: map<Pid, Peer>)
    requires Inv(s) && pid in s.peers && s.peers[pid].info.id > 0
    requires peers.Keys == s.peers.Keys && peers[pid].info == s.peers[pid].info && peers[pid].handled == [PeerAdd]
    requires forall q :: q in s.peers && q != pid ==>
      peers[q].info == s.peers[q].info && peers[q].handled == s.peers[q].handled
    requires s.peers[pid].info.id !in Members(s.tables)
    ensures MemberInv(Insert(s.tables, s.peers[pid].info), peers)
  {
    var t' := Insert(s.tables, s.peers[pid].info);
    assert PeerInv(s.peers[pid], Pending(s.queue, pid), s.running);
    forall id | id in Members(t') ensures exists q :: IsMember(t', peers, q, id) {
      if id == s.peers[pid].info.id {
        assert IsMember(t', peers, pid, id);
      } else {
        assert id in Members(s.tables);
        StillMember(s.tables, t', s.peers, peers, id);
      }
    }
  }

  lemma MembersAfterRemoval(t: Tables, t': Tables, peers: map<Pid, Peer>, peers': map<Pid, Peer>, gone: int)
    requires MemberInv(t, peers) && Without(t, t', gone)
    requires forall q :: q in peers && peers[q].info.id != gone ==>
      q in peers' && peers'[q].info == peers[q].info && peers'[q].handled == peers[q].handled
    ensures MemberInv(t', peers') && gone !in Members(t')
  {
    forall id | id in Members(t') ensures exists q :: IsMember(t', peers', q, id) {
      assert id in Members(t);
      StillMember(t, t', peers, peers', id);
    }
  }

  /** Only the history of `pid` has grown. */
  predicate Advanced(peers: map<Pid, Peer>, peers': map<Pid, Peer>, pid: Pid, a: Action) {
    && pid in peers && peers'.Keys == peers.Keys
    && peers'[pid].info == peers[pid].info && peers'[pid].sentAdd == peers[pid].sentAdd
    && peers'[pid].handled == peers[pid].handled + [a]
    && forall q :: q in peers && q != pid ==>
        && peers'[q].info == peers[q].info && peers'[q].handled == peers[q].handled
        && peers'[q].sentAdd == peers[q].sentAdd
  }

  lemma CallsAfterHandle(s: State, s': State, pid: Pid, a: Action)
    requires CallsInv(s) && Advanced(s.peers, s'.peers, pid, a)
    requires a !in s.peers[pid].handled && (a.PeerAdd? ==> PeerDone !in s.peers[pid].handled)
    requires s'.calls == s.calls || s'.calls == s.calls + [if a.PeerAdd? then NewPeer(pid) else DonePeer(pid)]
    requires a.PeerDone? && s'.calls != s.calls ==> s.peers[pid].sentAdd
    ensures CallsInv(s')
  {
    assert s'.peers[pid].handled[|s.peers[pid].handled|] == a;
    forall i | 0 <= i < |s.calls|
      ensures s.calls[i].NewPeer? ==> PeerAdd in s'.peers[s.calls[i].pid].handled
      ensures s.calls[i].DonePeer? ==> PeerDone in s'.peers[s.calls[i].pid].handled
    {
    }
  }

  lemma IdsFrame(s: State, s': State)
    requires IdsInv(s) && s'.lastId == s.lastId && s'.peers.Keys == s.peers.Keys
    requires forall q :: q in s.peers ==> s'.peers[q].info == s.peers[q].info
    ensures IdsInv(s')
  {
  }

  /** The tables after an add, whichever way it went, hold `pid` only if it was let in. */
  lemma MembersAfterAdd(s: State, pid: Pid, env: Env, victim: int, peers: map<Pid, Peer>)
    requires Inv(s) && VictimOk(s.tables, victim) && Advanced(s.peers, peers, pid, PeerAdd)
    requires s.peers[pid].handled == [] && s.peers[pid].info.id > 0 && s.peers[pid].info.id !in Members(s.tables)
    ensures MemberInv(HandleAdd(s.tables, s.peers[pid].info, env, victim).tables, peers)
  {
    var info := s.peers[pid].info;
    AddOutcome(s.tables, info, env, victim);
    var r := HandleAdd(s.tables, info, env, victim);
    if r.accepted {
      var s1 := s.(tables := Pardoned(s.tables, info));
      PardonedState(s, info);
      MembersAfterInsert(s1, pid, peers);
    } else {
      AbsentWithout(s.tables, r.tables, info.id);
      MembersAfterRemoval(s.tables, r.tables, s.peers, peers, info.id);
    }
  }

  lemma PardonedState(s: State, info: PeerInfo)
    requires Inv(s) && info.host.Some?
    ensures Inv(s.(tables := Pardoned(s.tables, info)))
  {
    PardonKeepsInv(s.tables, info);
    var t' := Pardoned(s.tables, info);
    forall id | id in Members(t') ensures exists q :: IsMember(t', s.peers, q, id) {
      StillMember(s.tables, t', s.peers, s.peers, id);
    }
  }

  /** The id of a peer whose add has not been handled is in no table. */
  lemma NotYetMember(s: State, pid: Pid)
    requires Inv(s) && pid in s.peers && s.peers[pid].handled != [PeerAdd]
    ensures s.peers[pid].info.id !in Members(s.tables)
  {
    if s.peers[pid].info.id in Members(s.tables) {
      MemberIsPeer(s, pid, s.peers[pid].info.id);
    }
  }

  lemma AddQueue(s: State, s': State, ids: set<int>)
    requires QueueInv(s) && s.running && s.queue != [] && s.queue[0].pid in s.peers
    requires
      var pid := s.queue[0].pid;
      s' == s.(queue := s.queue[1..], tables := s'.tables, calls := s'.calls,
               peers := CutOff(
                 s.peers[pid := s.peers[pid].(handled := s.peers[pid].handled + [s.queue[0].action])], ids))
    ensures QueueInv(s')
  {
    var pid := s.queue[0].pid;
    var p := s.peers[pid].(handled := s.peers[pid].handled + [s.queue[0].action]);
    HandledQueue(s, p);
    CutOffQueue(WithPeer(s, pid, p).(queue := s.queue[1..]), ids);
  }

  lemma HandleAddStepKeepsInv(s: State, env: Env, victim: int)
    requires Inv(s) && s.running && s.queue != [] && s.queue[0].pid in s.peers && VictimOk(s.tables, victim)
    requires s.queue[0].action.PeerAdd?
    ensures Inv(HandleNext(s, env, victim))
  {
    var pid := s.queue[0].pid;
    var s' := HandleNext(s, env, victim);
    NextEvent(s);
    NotYetMember(s, pid);
    assert PeerInv(s.peers[pid], Pending(s.queue, pid), s.running);
    HandleAddKeepsInv(s.tables, s.peers[pid].info, env, victim);
    assert Advanced(s.peers, s'.peers, pid, PeerAdd);
    MembersAfterAdd(s, pid, env, victim, s'.peers);
    AddQueue(s, s', HandleAdd(s.tables, s.peers[pid].info, env, victim).dropped);
    CallsAfterHandle(s, s', pid, PeerAdd);
    IdsFrame(s, s');
  }

  lemma MembersAfterDone(s: State, pid: Pid, peers: map<Pid, Peer>)
    requires Inv(s) && Advanced(s.peers, peers, pid, PeerDone)
    ensures MemberInv(HandleDone(s.tables, s.peers[pid].info), peers)
    ensures s.peers[pid].info.id !in Members(HandleDone(s.tables, s.peers[pid].info))
  {
    var info := s.peers[pid].info;
    if info.id in Members(s.tables) { MemberIsPeer(s, pid, info.id); }
    DoneWithout(s.tables, info);
    MembersAfterRemoval(s.tables, HandleDone(s.tables, info), s.peers, peers, info.id);
  }

  /** The tables after a departure. */
  lemma DoneTables(s: State)
    requires Inv(s) && s.running && s.queue != [] && s.queue[0].pid in s.peers && s.queue[0].action.PeerDone?
    ensures PeerTables.Inv(HandleDone(s.tables, s.peers[s.queue[0].pid].info))
    ensures s.peers[s.queue[0].pid].info.id !in Members(HandleDone(s.tables, s.peers[s.queue[0].pid].info))
  {
    var pid := s.queue[0].pid;
    NextEvent(s);
    if s.peers[pid].info.id in Members(s.tables) { MemberIsPeer(s, pid, s.peers[pid].info.id); }
    HandleDoneKeepsInv(s.tables, s.peers[pid].info);
  }

  lemma HandleDoneStepKeepsInv(s: State, env: Env, victim: int)
    requires Inv(s) && s.running && s.queue != [] && s.queue[0].pid in s.peers && VictimOk(s.tables, victim)
    requires s.queue[0].action.PeerDone?
    ensures Inv(HandleNext(s, env, victim))
    ensures s.peers[s.queue[0].pid].info.id !in Members(HandleNext(s, env, victim).tables)
  {
    var pid := s.queue[0].pid;
    var s' := HandleNext(s, env, victim);
    NextEvent(s);
    DoneTables(s);
    assert Advanced(s.peers, s'.peers, pid, PeerDone);
    MembersAfterDone(s, pid, s'.peers);
    HandledQueue(s, s'.peers[pid]);
    CallsAfterHandle(s, s', pid, PeerDone);
    IdsFrame(s, s');
  }

  // ---------- The operator, shutdown, and every step ----------

  lemma RemovalKeepsInv(s: State, t': Tables, id: int)
    requires Inv(s) && PeerTables.Inv(t') && Without(s.tables, t', id)
    ensures Inv(s.(tables := t'))
  {
    MembersAfterRemoval(s.tables, t', s.peers, s.peers, id);
  }

  lemma OneListWithout(t: Tables, t': Tables, id: int)
    requires Sorted(t)
    requires
      || (id in t.inbound &&
          t'.inbound == t.inbound - {id} && t'.outbound == t.outbound && t'.persistent == t.persistent)
      || (id in t.outbound &&
          t'.inbound == t.inbound && t'.outbound == t.outbound - {id} && t'.persistent == t.persistent)
      || (id in t.persistent &&
          t'.inbound == t.inbound && t'.outbound == t.outbound && t'.persistent == t.persistent - {id})
    ensures Without(t, t', id)
  {
    assert id !in t.inbound ==> t.inbound - {id} == t.inbound;
    assert id !in t.outbound ==> t.outbound - {id} == t.outbound;
    assert id !in t.persistent ==> t.persistent - {id} == t.persistent;
  }

  lemma {:induction false} DropAllStepKeepsInv(s: State, ids: seq<int>)
    requires Inv(s)
    ensures Inv(s.(tables := DropAllOutbound(s.tables, ids)))
  {
    if ids == [] {
    } else {
      var front, last := ids[..|ids| - 1], ids[|ids| - 1];
      DropAllStepKeepsInv(s, front);
      var s1 := s.(tables := DropAllOutbound(s.tables, front));
      if last in s1.tables.outbound {
        DropOutboundKeepsInv(s1.tables, last);
        OneListWithout(s1.tables, DropOutbound(s1.tables, last), last);
        RemovalKeepsInv(s1, DropOutbound(s1.tables, last), last);
      }
    }
  }

  lemma OperatorKeepsInv(s: State, a: Step)
    requires Inv(s) && Enabled(s, a) && (a.RemoveNode? || a.DisconnectInbound? || a.DisconnectOutbound?)
    ensures Inv(Next(s, a))
  {
    match a
    case RemoveNode(id) =>
      DropPersistentKeepsInv(s.tables, id);
      OneListWithout(s.tables, DropPersistent(s.tables, id), id);
      RemovalKeepsInv(s, DropPersistent(s.tables, id), id);
      CutOffKeepsInv(s.(tables := DropPersistent(s.tables, id)), {id});
    case DisconnectInbound(id) =>
      OneListWithout(s.tables, DropInbound(s.tables, id), id);
      RemovalKeepsInv(s, DropInbound(s.tables, id), id);
      CutOffKeepsInv(s.(tables := DropInbound(s.tables, id)), {id});
    case DisconnectOutbound(ids) =>
      DropAllStepKeepsInv(s, ids);
      CutOffKeepsInv(s.(tables := DropAllOutbound(s.tables, ids)), set id | id in ids);
  }

  lemma BanKeepsInv(s: State, host: string, until: int)
    requires Inv(s)
    ensures Inv(s.(tables := s.tables.(banned := s.tables.banned[host := until])))
  {
    var t' := s.tables.(banned := s.tables.banned[host := until]);
    forall id | id in Members(t') ensures exists q :: IsMember(t', s.peers, q, id) {
      StillMember(s.tables, t', s.peers, s.peers, id);
    }
  }

  lemma QuitKeepsInv(s: State)
    requires Inv(s)
    ensures Inv(s.(running := false))
  {
    var s' := s.(running := false);
    forall p | p in s'.peers ensures PeerInv(s'.peers[p], Pending(s'.queue, p), s'.running) {
      assert PeerInv(s.peers[p], Pending(s.queue, p), s.running);
    }
  }

  lemma DrainKeepsInv(s: State)
    requires Inv(s) && Enabled(s, Drain)
    ensures Inv(Next(s, Drain))
  {
    var pid := s.queue[0].pid;
    var p := s.peers[pid].(drained := s.peers[pid].drained + [s.queue[0].action]);
    DrainedQueue(s, p);
    RecordFrame(s, WithPeer(s, pid, p).(queue := s.queue[1..]));
  }

  lemma LifecycleKeepsInv(s: State, a: Step)
    requires Inv(s) && Enabled(s, a)
    requires a.VerAckRelease? || a.VerAckClose? || a.Disconnect? || a.NoteAdded? || a.SelectDone? || a.Release?
    ensures Inv(Next(s, a))
  {
    assert PeerInv(s.peers[a.pid], Pending(s.queue, a.pid), s.running);
    LocalKeepsInv(s, a.pid, Next(s, a).peers[a.pid]);
  }

  lemma SendKeepsInv(s: State, a: Step)
    requires Inv(s) && Enabled(s, a) && (a.SelectVerAck? || a.SendDone?)
    ensures Inv(Next(s, a))
  {
    var p, pending := s.peers[a.pid], Pending(s.queue, a.pid);
    assert PeerInv(p, pending, s.running);
    var action := if a.SelectVerAck? then PeerAdd else PeerDone;
    var p' := if a.SelectVerAck? then p.(phase := AddSent, sentAdd := true) else p.(phase := Finished);
    assert p.handled + p.drained + (pending + [action]) == p.handled + p.drained + pending + [action];
    assert Sent(p') == Sent(p) + [action];
    EnqueueKeepsInv(s, a.pid, p', action);
  }

  lemma HandleStepKeepsInv(s: State, env: Env, victim: int)
    requires Inv(s) && Enabled(s, Handle(env, victim))
    ensures Inv(HandleNext(s, env, victim))
  {
    if s.queue[0].action.PeerAdd? {
      HandleAddStepKeepsInv(s, env, victim);
    } else {
      HandleDoneStepKeepsInv(s, env, victim);
    }
  }

  lemma QuitStepKeepsInv(s: State)
    requires Inv(s) && Enabled(s, Quit)
    ensures Inv(Next(s, Quit))
  {
    QuitKeepsInv(s);
    CutOffKeepsInv(s.(running := false), Members(s.tables));
  }

  lemma NextKeepsInv(s: State, a: Step)
    requires Inv(s) && Enabled(s, a)
    ensures Inv(Next(s, a))
  {
    match a
    case Connect(pid, info, holdsSlot) =>
      ConnectKeepsInv(s, pid, Peer(info, true, NoVerAck, Awaiting, false, false, holdsSlot, false, 0, [], []));
    case Version(pid) => VersionKeepsInv(s, pid);
    case Handle(env, victim) => HandleStepKeepsInv(s, env, victim);
    case SelectVerAck(_) => SendKeepsInv(s, a);
    case SendDone(_) => SendKeepsInv(s, a);
    case RemoveNode(_) => OperatorKeepsInv(s, a);
    case DisconnectInbound(_) => OperatorKeepsInv(s, a);
    case DisconnectOutbound(_) => OperatorKeepsInv(s, a);
    case Ban(host, until) => BanKeepsInv(s, host, until);
    case Quit => QuitStepKeepsInv(s);
    case Drain => DrainKeepsInv(s);
    case VerAckRelease(_) => LifecycleKeepsInv(s, a);
    case VerAckClose(_) => LifecycleKeepsInv(s, a);
    case Disconnect(_) => LifecycleKeepsInv(s, a);
    case NoteAdded(_) => LifecycleKeepsInv(s, a);
    case SelectDone(_) => LifecycleKeepsInv(s, a);
    case Release(_) => LifecycleKeepsInv(s, a);
  }

  // ---------- Whole runs ----------

  /** `run` is the successive states of a server started fresh, under any interleaving of steps. */
  ghost predicate IsRun(run: seq<State>, steps: seq<Step>) {
    && |run| == |steps| + 1 && run[0] == INIT
    && forall i :: 0 <= i < |steps| ==> Link(run, steps, i)
  }

  ghost predicate Link(run: seq<State>, steps: seq<Step>, i: int)
    requires |run| == |steps| + 1 && 0 <= i < |steps|
  {
    Enabled(run[i], steps[i]) && run[i + 1] == Next(run[i], steps[i])
  }

  lemma InitInv()
    ensures Inv(INIT)
  {
    EmptyInv();
  }

  lemma {:induction false} RunKeepsInv(run: seq<State>, steps: seq<Step>, i: nat)
    requires IsRun(run, steps) && i < |run|
    ensures Inv(run[i])
  {
    if i == 0 {
      InitInv();
    } else {
      RunKeepsInv(run, steps, i - 1);
      assert Link(run, steps, i - 1);
      NextKeepsInv(run[i - 1], steps[i - 1]);
    }
  }

  /** Every peer's add is handled before its done and each at most once, and its handshake slot is
      released at most once, and exactly once by the time its goroutine has finished. */
  lemma EventsInOrder(run: seq<State>, steps: seq<Step>, i: nat, pid: Pid)
    requires IsRun(run, steps) && i < |run| && pid in run[i].peers
    ensures
      var p := run[i].peers[pid];
      && (p.handled == [] || p.handled == [PeerAdd] || p.handled == [PeerDone] || p.handled == [PeerAdd, PeerDone])
      && (PeerAdd in p.handled ==> p.sentAdd)
      && p.releases <= 1 && (p.phase.Finished? && p.holdsSlot ==> p.releases == 1)
      && (!p.holdsSlot ==> p.releases == 0)
  {
    RunKeepsInv(run, steps, i);
    var p, pending := run[i].peers[pid], Pending(run[i].queue, pid);
    assert PeerInv(p, pending, run[i].running);
    assert p.handled == Sent(p)[..|p.handled|];
  }

  /** The sync manager hears of a peer's arrival at most once and of its departure at most once, never of
      an arrival after a departure, and of a departure only if the add event was sent. */
  lemma SyncCallsInOrder(run: seq<State>, steps: seq<Step>, i: nat, a: nat, b: nat)
    requires IsRun(run, steps) && i < |run| && a < b < |run[i].calls| && run[i].calls[a].pid == run[i].calls[b].pid
    ensures run[i].calls[a].NewPeer? && run[i].calls[b].DonePeer?
    ensures run[i].calls[b].pid in run[i].peers && run[i].peers[run[i].calls[b].pid].sentAdd
  {
    RunKeepsInv(run, steps, i);
  }

  /** The step by which an event of a peer is handled. */
  predicate HandledAt(run: seq<State>, steps: seq<Step>, i: int, pid: Pid, a: Action) {
    && 0 <= i < |steps| && i < |run| && steps[i].Handle?
    && run[i].queue != [] && run[i].queue[0] == Event(a, pid)
  }

  /** A step tells the sync manager of at most one peer, the one whose event it handles. */
  lemma CallsOfStep(s: State, a: Step)
    requires Enabled(s, a)
    ensures
      var calls := Next(s, a).calls;
      || calls == s.calls
      || (a.Handle? && s.queue[0].action.PeerAdd? && calls == s.calls + [NewPeer(s.queue[0].pid)])
      || (a.Handle? && s.queue[0].action.PeerDone? && calls == s.calls + [DonePeer(s.queue[0].pid)])
  {
  }

  /** What has been handled for a peer, none for one not yet known. */
  function HandledFor(s: State, pid: Pid): seq<Action> {
    if pid in s.peers then s.peers[pid].handled else []
  }

  lemma CutOffHandled(s: State, ids: set<int>, pid: Pid)
    ensures HandledFor(s.(peers := CutOff(s.peers, ids)), pid) == HandledFor(s, pid)
  {
  }

  lemma HandleHandles(s: State, env: Env, victim: int, pid: Pid)
    requires Enabled(s, Handle(env, victim))
    ensures HandledFor(HandleNext(s, env, victim), pid) ==
      HandledFor(s, pid) + if s.queue[0].pid == pid then [s.queue[0].action] else []
  {
    var q := s.queue[0].pid;
    var p := s.peers[q];
    if s.queue[0].action.PeerAdd? {
      var r := HandleAdd(s.tables, p.info, env, victim);
      var peers := s.peers[q := p.(handled := p.handled + [PeerAdd])];
      CutOffHandled(s.(peers := peers), r.dropped, pid);
    }
  }

  lemma OthersHandleNothing(s: State, a: Step, pid: Pid)
    requires Enabled(s, a) && !a.Handle?
    ensures HandledFor(Next(s, a), pid) == HandledFor(s, pid)
  {
    match a
    case RemoveNode(id) => CutOffHandled(s, {id}, pid);
    case DisconnectInbound(id) => CutOffHandled(s, {id}, pid);
    case DisconnectOutbound(ids) => CutOffHandled(s, (set id | id in ids), pid);
    case Quit => CutOffHandled(s, Members(s.tables), pid);
    case _ =>
  }

  /** One step adds at most the event it handles. */
  lemma HandledAfter(s: State, a: Step, pid: Pid)
    requires Enabled(s, a)
    ensures HandledFor(Next(s, a), pid) ==
      HandledFor(s, pid) + if a.Handle? && s.queue[0].pid == pid then [s.queue[0].action] else []
  {
    if a.Handle? {
      HandleHandles(s, a.env, a.victim, pid);
    } else {
      OthersHandleNothing(s, a, pid);
    }
  }

  lemma HandledPrefix(run: seq<State>, steps: seq<Step>, i: nat, pid: Pid)
    requires IsRun(run, steps) && i < |steps|
    ensures HandledFor(run[i], pid) <= HandledFor(run[i + 1], pid)
  {
    assert Link(run, steps, i);
    HandledAfter(run[i], steps[i], pid);
  }

  lemma PrefixOfPrefix(a: seq<Action>, b: seq<Action>, c: seq<Action>)
    requires a <= b <= c
    ensures a <= c
  {
  }

  lemma {:induction false} HandledGrows(run: seq<State>, steps: seq<Step>, i: nat, j: nat, pid: Pid)
    requires IsRun(run, steps) && i <= j < |run|
    ensures HandledFor(run[i], pid) <= HandledFor(run[j], pid)
  {
    if i == j {
    } else {
      HandledGrows(run, steps, i, j - 1, pid);
      HandledPrefix(run, steps, j - 1, pid);
      PrefixOfPrefix(HandledFor(run[i], pid), HandledFor(run[j - 1], pid), HandledFor(run[j], pid));
    }
  }

  /** An event that is next in the queue has not been handled. */
  lemma NextIsUnhandled(s: State)
    requires Inv(s) && s.running && s.queue != []
    ensures s.queue[0].pid in s.peers && s.queue[0].action !in HandledFor(s, s.queue[0].pid)
  {
    NextEvent(s);
    assert s.queue[0] in s.queue;
  }

  lemma HandledInStep(run: seq<State>, steps: seq<Step>, i: nat, pid: Pid, a: Action)
    requires IsRun(run, steps) && i < |steps|
    ensures a in HandledFor(run[i + 1], pid) <==>
      a in HandledFor(run[i], pid) || HandledAt(run, steps, i, pid, a)
  {
    assert Link(run, steps, i);
    HandledAfter(run[i], steps[i], pid);
    var before, after := HandledFor(run[i], pid), HandledFor(run[i + 1], pid);
    if HandledAt(run, steps, i, pid, a) {
      assert after[|before|] == a;
    }
  }

  lemma NotNextAgain(s: State, pid: Pid, a: Action)
    requires Inv(s) && a in HandledFor(s, pid) && s.running && s.queue != []
    ensures s.queue[0] != Event(a, pid)
  {
    NextIsUnhandled(s);
  }

  lemma HandlerRuns(s: State, step: Step)
    requires Enabled(s, step) && step.Handle?
    ensures s.running && s.queue != []
  {
  }

  /** An event is handled at most once. */
  lemma HandledOnce(run: seq<State>, steps: seq<Step>, i: nat, j: nat, pid: Pid, a: Action)
    requires IsRun(run, steps) && HandledAt(run, steps, i, pid, a) && i < j < |steps|
    ensures !HandledAt(run, steps, j, pid, a)
  {
    if steps[j].Handle? {
      assert a in HandledFor(run[j], pid) by {
        HandledInStep(run, steps, i, pid, a);
        HandledGrows(run, steps, i + 1, j, pid);
      }
      assert run[j].queue[0] != Event(a, pid) by {
        RunKeepsInv(run, steps, j);
        assert Link(run, steps, j);
        HandlerRuns(run[j], steps[j]);
        NotNextAgain(run[j], pid, a);
      }
    }
  }

  lemma ArrivalAtOnce(s: State, env: Env, victim: int)
    requires Inv(s) && Enabled(s, Handle(env, victim)) && s.queue[0].action.PeerAdd?
    ensures
      var pid := s.queue[0].pid;
      NewPeer(pid) in HandleNext(s, env, victim).calls <==> Admissible(s.tables, s.peers[pid].info, env)
  {
    NextIsUnhandled(s);
    assert NewPeer(s.queue[0].pid) !in s.calls;
    AcceptedIff(s.tables, s.peers[s.queue[0].pid].info, env, victim);
  }

  lemma DepartureAtOnce(s: State, env: Env, victim: int)
    requires Inv(s) && Enabled(s, Handle(env, victim)) && s.queue[0].action.PeerDone?
    ensures
      var pid := s.queue[0].pid;
      DonePeer(pid) in HandleNext(s, env, victim).calls <==> s.peers[pid].sentAdd
  {
    NextIsUnhandled(s);
    NextEvent(s);
    assert DonePeer(s.queue[0].pid) !in s.calls;
  }

  /** A step that does not handle a peer's event does not tell of it either. */
  lemma ToldOnlyWhenHandled(run: seq<State>, steps: seq<Step>, j: nat, pid: Pid, a: Action)
    requires IsRun(run, steps) && j < |steps| && !HandledAt(run, steps, j, pid, a)
    ensures var call := if a.PeerAdd? then NewPeer(pid) else DonePeer(pid);
      call in run[j + 1].calls <==> call in run[j].calls
  {
    assert Link(run, steps, j);
    CallsOfStep(run[j], steps[j]);
  }

  /** Once an event of a peer has been handled, the sync manager has heard of it then or not at all. */
  lemma {:induction false} ToldThenOrNever(run: seq<State>, steps: seq<Step>, i: nat, j: nat, pid: Pid, a: Action)
    requires IsRun(run, steps) && HandledAt(run, steps, i, pid, a) && i < j < |run|
    ensures var call := if a.PeerAdd? then NewPeer(pid) else DonePeer(pid);
      call in run[j].calls <==> call in run[i + 1].calls
  {
    if j == i + 1 {
    } else {
      ToldThenOrNever(run, steps, i, j - 1, pid, a);
      HandledOnce(run, steps, i, j - 1, pid, a);
      ToldOnlyWhenHandled(run, steps, j - 1, pid, a);
    }
  }

  /** Once a peer's add has been handled, the sync manager has heard of its arrival if and only if the peer
      was admissible at that moment, by the tables and the configuration then. */
  lemma ArrivalIffAdmissible(run: seq<State>, steps: seq<Step>, i: nat, j: nat, pid: Pid)
    requires IsRun(run, steps) && HandledAt(run, steps, i, pid, PeerAdd) && i < j < |run|
    ensures pid in run[i].peers
    ensures NewPeer(pid) in run[j].calls <==> Admissible(run[i].tables, run[i].peers[pid].info, steps[i].env)
  {
    RunKeepsInv(run, steps, i);
    assert Link(run, steps, i);
    ArrivalAtOnce(run[i], steps[i].env, steps[i].victim);
    ToldThenOrNever(run, steps, i, j, pid, PeerAdd);
  }

  /** Once its done has been handled, the sync manager has heard of its departure if and only if the peer had
      sent its add. */
  lemma DepartureIffSent(run: seq<State>, steps: seq<Step>, i: nat, j: nat, pid: Pid)
    requires IsRun(run, steps) && HandledAt(run, steps, i, pid, PeerDone) && i < j < |run|
    ensures pid in run[i].peers
    ensures DonePeer(pid) in run[j].calls <==> run[i].peers[pid].sentAdd
  {
    RunKeepsInv(run, steps, i);
    assert Link(run, steps, i);
    DepartureAtOnce(run[i], steps[i].env, steps[i].victim);
    ToldThenOrNever(run, steps, i, j, pid, PeerDone);
  }

  /** What has been handled was handled by some step. */
  lemma {:induction false} HandledSometime(run: seq<State>, steps: seq<Step>, j: nat, pid: Pid, a: Action)
    requires IsRun(run, steps) && j < |run| && a in HandledFor(run[j], pid)
    ensures exists i :: i < j && HandledAt(run, steps, i, pid, a)
  {
    if j == 0 {
    } else {
      HandledInStep(run, steps, j - 1, pid, a);
      if a in HandledFor(run[j - 1], pid) {
        HandledSometime(run, steps, j - 1, pid, a);
      }
    }
  }

  /** A run's step at which the add of a peer was handled, and what it meant for the sync manager. */
  ghost predicate Decided(run: seq<State>, steps: seq<Step>, i: int, j: nat, pid: Pid)
    requires j < |run|
  {
    && 0 <= i < j && HandledAt(run, steps, i, pid, PeerAdd) && pid in run[i].peers
    && (NewPeer(pid) in run[j].calls <==> Admissible(run[i].tables, run[i].peers[pid].info, steps[i].env))
  }

  /** In every run: a departure the sync manager hears of is of a peer whose add was handled before, and it
      has heard of the arrival, earlier, if and only if the peer was admissible then. */
  lemma DepartureRule(run: seq<State>, steps: seq<Step>, j: nat, pid: Pid, b: nat) returns (i: nat)
    requires IsRun(run, steps) && j < |run| && b < |run[j].calls| && run[j].calls[b] == DonePeer(pid)
    ensures Decided(run, steps, i, j, pid)
    ensures forall a :: 0 <= a < |run[j].calls| && run[j].calls[a] == NewPeer(pid) ==> a < b
  {
    RunKeepsInv(run, steps, j);
    ArrivalIsFirst(run[j], pid, b);
    AddWasHandled(run[j], pid, b);
    i := WhenAdded(run, steps, j, pid);
  }

  lemma WhenAdded(run: seq<State>, steps: seq<Step>, j: nat, pid: Pid) returns (i: nat)
    requires IsRun(run, steps) && j < |run| && PeerAdd in HandledFor(run[j], pid)
    ensures Decided(run, steps, i, j, pid)
  {
    HandledSometime(run, steps, j, pid, PeerAdd);
    i :| i < j && HandledAt(run, steps, i, pid, PeerAdd);
    ArrivalIffAdmissible(run, steps, i, j, pid);
  }

  lemma ArrivalIsFirst(s: State, pid: Pid, b: nat)
    requires CallsInv(s) && b < |s.calls| && s.calls[b] == DonePeer(pid)
    ensures forall a :: 0 <= a < |s.calls| && s.calls[a] == NewPeer(pid) ==> a < b
  {
  }

  lemma AddWasHandled(s: State, pid: Pid, b: nat)
    requires Inv(s) && b < |s.calls| && s.calls[b] == DonePeer(pid)
    ensures PeerAdd in HandledFor(s, pid)
  {
    var p := s.peers[pid];
    assert PeerInv(p, Pending(s.queue, pid), s.running);
    assert PeerDone in p.handled && p.sentAdd;
    assert p.handled == Sent(p)[..|p.handled|];
  }

  lemma PeersStay(s: State, a: Step)
    requires Enabled(s, a)
    ensures s.peers.Keys <= Next(s, a).peers.Keys
  {
  }

  lemma {:induction false} PeersOfRun(run: seq<State>, steps: seq<Step>, i: nat, j: nat)
    requires IsRun(run, steps) && i <= j < |run|
    ensures run[i].peers.Keys <= run[j].peers.Keys
  {
    if i == j {
    } else {
      PeersOfRun(run, steps, i, j - 1);
      assert Link(run, steps, j - 1);
      PeersStay(run[j - 1], steps[j - 1]);
    }
  }

  lemma HistoryGrows(run: seq<State>, steps: seq<Step>, i: nat, j: nat, pid: Pid)
    requires IsRun(run, steps) && i <= j < |run| && pid in run[i].peers
    ensures pid in run[j].peers && run[i].peers[pid].handled <= run[j].peers[pid].handled
  {
    PeersOfRun(run, steps, i, j);
    HandledGrows(run, steps, i, j, pid);
  }

  /** Once a peer's done has been handled, it is in none of the three tables, then and ever after. */
  lemma GoneForGood(run: seq<State>, steps: seq<Step>, i: nat, j: nat, pid: Pid)
    requires IsRun(run, steps) && i <= j < |run| && pid in run[i].peers && PeerDone in run[i].peers[pid].handled
    ensures pid in run[j].peers && run[j].peers[pid].info.id !in Members(run[j].tables)
  {
    HistoryGrows(run, steps, i, j, pid);
    RunKeepsInv(run, steps, j);
    assert PeerDone in run[j].peers[pid].handled;
    NotYetMember(run[j], pid);
  }

  /** In every state of every run the accounting maps count the outbound and persistent peers in the
      tables, and are not negative: also when an operator has removed a peer whose done is still to come. */
  lemma TalliesAlwaysRight(run: seq<State>, steps: seq<Step>, i: nat, g: string, ip: string)
    requires IsRun(run, steps) && i < |run|
    ensures
      var t := run[i].tables;
      && Get(t.groups, g) == |InGroup(t.outbound, g)| + |InGroup(t.persistent, g)| >= 0
      && (ip != "" ==> Get(t.ips, ip) == |AtIP(t.outbound, ip)| + |AtIP(t.persistent, ip)| >= 0)
  {
    RunKeepsInv(run, steps, i);
  }

  /** The peer of the story below, at one moment. */
  function Actor(info: PeerInfo, connected: bool, verAck: VerAck, phase: Phase, handled: seq<Action>): Peer {
    Peer(info, connected, verAck, phase, !phase.Awaiting? && !phase.AddSent?, !phase.Awaiting?, false,
         !verAck.NoVerAck?, 0, handled, [])
  }

  /** A peer that disconnects between sending its add event and its handling. */
  function Story(info: PeerInfo, k: nat): State
    requires k <= 11
  {
    var known := info.(id := 1);
    var p := [Actor(info, true, NoVerAck, Awaiting, []), Actor(known, true, NoVerAck, Awaiting, []),
              Actor(known, true, SlotGiven, Awaiting, []), Actor(known, true, ChannelClosed, Awaiting, []),
              Actor(known, true, ChannelClosed, AddSent, []), Actor(known, false, ChannelClosed, AddSent, []),
              Actor(known, false, ChannelClosed, AddSent, [PeerAdd]),
              Actor(known, false, ChannelClosed, AddNoted, [PeerAdd]),
              Actor(known, false, ChannelClosed, Released, [PeerAdd]),
              Actor(known, false, ChannelClosed, Finished, [PeerAdd]),
              Actor(known, false, ChannelClosed, Finished, [PeerAdd, PeerDone])];
    State(if k == 0 then map[] else map[0 := p[k - 1]],
          if 5 <= k <= 6 then [Event(PeerAdd, 0)] else if k == 10 then [Event(PeerDone, 0)] else [],
          EMPTY, if k < 2 then 0 else 1, if k == 11 then [DonePeer(0)] else [], true)
  }

  function StorySteps(info: PeerInfo, env: Env): seq<Step> {
    [Connect(0, info, false), Version(0), VerAckRelease(0), VerAckClose(0), SelectVerAck(0), Disconnect(0),
     Handle(env, 0), NoteAdded(0), Release(0), SendDone(0), Handle(env, 0)]
  }

  lemma CutOffNobody(peers: map<Pid, Peer>)
    ensures CutOff(peers, {}) == peers
  {
  }

  lemma StoryAdd(info: PeerInfo, env: Env)
    requires info.id == 0 && env.connected == {}
    ensures Enabled(Story(info, 6), Handle(env, 0)) && Next(Story(info, 6), Handle(env, 0)) == Story(info, 7)
  {
    var s := Story(info, 6);
    assert ConnectedIds(s.peers) == {};
    assert s.queue[1..] == [];
    assert s.peers[0].handled + [PeerAdd] == [PeerAdd];
    assert s.peers[0 := s.peers[0].(handled := [PeerAdd])] == Story(info, 7).peers;
    CutOffNobody(Story(info, 7).peers);
  }

  lemma StoryDone(info: PeerInfo, env: Env)
    requires info.id == 0 && env.connected == {}
    ensures Enabled(Story(info, 10), Handle(env, 0)) && Next(Story(info, 10), Handle(env, 0)) == Story(info, 11)
  {
    var s := Story(info, 10);
    assert ConnectedIds(s.peers) == {};
    assert s.peers[0].handled + [PeerDone] == [PeerAdd, PeerDone];
    assert s.queue[1..] == [] && s.calls + [DonePeer(0)] == [DonePeer(0)];
  }

  lemma StoryBegins(info: PeerInfo, env: Env, k: nat)
    requires info.id == 0 && !info.inbound && k < 3
    ensures Enabled(Story(info, k), StorySteps(info, env)[k])
    ensures Next(Story(info, k), StorySteps(info, env)[k]) == Story(info, k + 1)
  {
  }

  lemma StoryGoesOn(info: PeerInfo, env: Env, k: nat)
    requires info.id == 0 && !info.inbound && 3 <= k < 6
    ensures Enabled(Story(info, k), StorySteps(info, env)[k])
    ensures Next(Story(info, k), StorySteps(info, env)[k]) == Story(info, k + 1)
  {
  }

  lemma StoryEnds(info: PeerInfo, env: Env, k: nat)
    requires info.id == 0 && !info.inbound && 7 <= k < 10
    ensures Enabled(Story(info, k), StorySteps(info, env)[k])
    ensures Next(Story(info, k), StorySteps(info, env)[k]) == Story(info, k + 1)
  {
  }

  lemma StoryUnfolds(info: PeerInfo, env: Env, k: nat)
    requires info.id == 0 && !info.inbound && env.connected == {} && k < 11
    ensures Enabled(Story(info, k), StorySteps(info, env)[k])
    ensures Next(Story(info, k), StorySteps(info, env)[k]) == Story(info, k + 1)
  {
    if k < 3 {
      StoryBegins(info, env, k);
    } else if k < 6 {
      StoryGoesOn(info, env, k);
    } else if k == 6 {
      StoryAdd(info, env);
    } else if k < 10 {
      StoryEnds(info, env, k);
    } else {
      StoryDone(info, env);
    }
  }

  /** A run in which the sync manager hears of a departure but never of an arrival. */
  lemma DepartureWithoutArrival(info: PeerInfo, env: Env)
    requires info.id == 0 && !info.inbound && env.connected == {}
    ensures
      var run := seq(12, k requires 0 <= k < 12 => Story(info, k));
      IsRun(run, StorySteps(info, env)) && run[11].calls == [DonePeer(0)]
  {
    forall k | 0 <= k < 11
      ensures Enabled(Story(info, k), StorySteps(info, env)[k])
      ensures Next(Story(info, k), StorySteps(info, env)[k]) == Story(info, k + 1)
    {
      StoryUnfolds(info, env, k);
    }
  }
}
