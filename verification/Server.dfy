/** The server loop: dial tasks, peers and their bookkeeping. */
module Servers {
  import opened Types
  import opened Dialing

  const MAX_ACTIVE_DIAL_TASKS: nat := 16
  const DEFAULT_DIAL_RATIO: nat := 3

  datatype Conn = Conn(id: NodeId, flags: Peer)

  datatype Disc = TooManyPeers | AlreadyConnected | DiscSelf | UselessPeer

  /** Something the loop is woken by. */
  datatype Event =
    | StaticAdded(n: Node)
    | StaticRemoved(n: Node)
    | TrustAdded(id: NodeId)
    | TrustRemoved(id: NodeId)
    | TaskFinished(t: Task, results: seq<Node>)
    | Encrypted(c: Conn)
    | Handshaken(c: Conn, matching: nat)
    | PeerGone(id: NodeId)
    | PeersAsked

  // ---- outstanding tasks ----

  /** Tasks in hand are exactly what the scheduler believes to be going on, each once. */
  ghost predicate Outstanding(ts: seq<Task>, s: Sched) {
    && NoDup(ts)
    && (forall f, id :: Dial(f, id) in ts <==> id in s.dialing && s.dialing[id] == f)
    && (Discover in ts <==> s.lookup)
  }

  lemma OutstandingMore(ts: seq<Task>, a: Sched, b: Sched, more: seq<Task>)
    requires Outstanding(ts, a) && Emitted(a, b, more) && (Wait in more ==> ts == [])
    ensures Outstanding(ts + more, b)
  {
    assert forall t :: t in ts + more <==> t in ts || t in more;
    forall t | t in ts ensures t !in more {
      match t {
        case Dial(f, id) =>
        case Discover =>
        case Wait =>
      }
    }
    forall i, j | 0 <= i < j < |ts + more| ensures (ts + more)[i] != (ts + more)[j] {
      assert i < |ts| ==> (ts + more)[i] in ts;
      assert j >= |ts| ==> (ts + more)[j] in more;
    }
  }

  lemma DialIsDyn(running: seq<Task>, queued: seq<Task>, s: Sched, id: NodeId)
    requires Outstanding(running + queued, s) && Dial(DynDialed, id) in running
    ensures id in DynDials(s.dialing)
  {
    assert Dial(DynDialed, id) in running + queued;
  }

  /** A finished task is no longer in hand. */
  lemma OutstandingLess(running: seq<Task>, queued: seq<Task>, i: nat, a: Sched, b: Sched)
    requires i < |running| && Outstanding(running + queued, a)
    requires b == AfterTask(a, running[i])
    ensures Outstanding(running[..i] + running[i + 1..] + queued, b)
  {
    var ts, rest := running + queued, running[..i] + running[i + 1..] + queued;
    assert forall j :: 0 <= j < |rest| ==> rest[j] == ts[if j < i then j else j + 1];
    forall t ensures t in rest <==> t in ts && t != ts[i] {
      if t in ts && t != ts[i] {
        var j :| 0 <= j < |ts| && ts[j] == t;
        assert rest[if j < i then j else j - 1] == t;
      }
    }
    assert ts[i] == running[i] && running[i] in ts;
  }

  function AfterTask(s: Sched, t: Task): Sched {
    match t
    case Dial(f, id) => s.(dialing := s.dialing - {id})
    case Discover => s.(lookup := false)
    case Wait => s
  }

  // ---- dynamic connections ----

  /** Distinct nodes that are dynamically connected or being dialed dynamically. */
  ghost function DynNodes(peers: Peers, dialing: map<NodeId, Flag>): set<NodeId> {
    DynPeers(peers) + DynDials(dialing)
  }

  lemma DynNodesOfTasks(peers: Peers, a: map<NodeId, Flag>, b: map<NodeId, Flag>, limit: nat)
    requires |DynNodes(peers, a)| <= limit && (forall id :: id in a ==> id in b && b[id] == a[id])
    requires |DynDials(b)| == |DynDials(a)| || |DynDials(b)| + |DynPeers(peers)| <= limit
    ensures |DynNodes(peers, b)| <= limit
  {
    LimitKept(DynPeers(peers), DynDials(a), DynDials(b), limit);
  }

  lemma LimitKept(p: set<NodeId>, a: set<NodeId>, b: set<NodeId>, limit: nat)
    requires a <= b && |p + a| <= limit && (|b| == |a| || |b| + |p| <= limit)
    ensures |p + b| <= limit
  {
    var more := b - a;
    assert b == a + more;
    if more == {} {
      assert b == a;
    } else {
      Union(p, b);
    }
  }

  lemma Union(s: set<NodeId>, t: set<NodeId>)
    ensures |s + t| <= |s| + |t|
  {
    assert s + t == s + (t - s);
    Fewer(t - s, t);
  }

  lemma Fewer(s: set<NodeId>, t: set<NodeId>)
    requires s <= t
    ensures |s| <= |t|
  {
    assert t == s + (t - s);
  }

  /** New tasks keep what is in hand exact, and the limit. */
  lemma NewTasksKeep(ts: seq<Task>, a: Sched, b: Sched, more: seq<Task>, peers: Peers, limit: nat)
    requires Outstanding(ts, a) && Emitted(a, b, more) && (Wait in more ==> ts == [])
    requires |DynNodes(peers, a.dialing)| <= limit
    requires |DynDials(b.dialing)| == |DynDials(a.dialing)| || |DynDials(b.dialing)| + |DynPeers(peers)| <= limit
    ensures Outstanding(ts + more, b) && |DynNodes(peers, b.dialing)| <= limit
  {
    OutstandingMore(ts, a, b, more);
    DynNodesOfTasks(peers, a.dialing, b.dialing, limit);
  }

  lemma FinishKeeps(peers: Peers, a: Sched, t: Task, limit: nat)
    requires |DynNodes(peers, a.dialing)| <= limit
    ensures |DynNodes(peers, AfterTask(a, t).dialing)| <= limit
  {
    Fewer(DynNodes(peers, AfterTask(a, t).dialing), DynNodes(peers, a.dialing));
  }

  lemma SplitAt(r: seq<Task>, ts: seq<Task>, k: nat)
    requires k <= |ts|
    ensures (r + ts[..k]) + ts[k..] == r + ts
    ensures multiset(r + ts[..k]) == multiset(r) + multiset(ts[..k])
  {
  }

  lemma RemovedOnce(ts: seq<Task>, i: nat)
    requires i < |ts|
    ensures multiset(ts) == multiset(ts[..i] + ts[i + 1..]) + multiset{ts[i]}
  {
    assert ts == ts[..i] + [ts[i]] + ts[i + 1..];
  }

  /** A dynamic connection was counted as a dial already. */
  lemma SameDynNodes(running: seq<Task>, queued: seq<Task>, s: Sched, peers: Peers, c: Conn)
    requires Outstanding(running + queued, s) && (c.flags.dynDialed ==> Dial(DynDialed, c.id) in running)
      && c.id !in peers
    ensures DynNodes(peers[c.id := c.flags], s.dialing) == DynNodes(peers, s.dialing)
  {
    if c.flags.dynDialed {
      DialIsDyn(running, queued, s, c.id);
    }
  }

  // ---- inbound peers ----

  ghost function Inbound(peers: Peers): set<NodeId> {
    set id | id in peers && peers[id].inbound
  }

  lemma InboundPut(peers: Peers, id: NodeId, p: Peer)
    requires id !in peers
    ensures |Inbound(peers[id := p])| == |Inbound(peers)| + if p.inbound then 1 else 0
  {
    assert Inbound(peers[id := p]) == Inbound(peers) + if p.inbound then {id} else {};
  }

  lemma InboundDrop(peers: Peers, id: NodeId)
    requires id in peers
    ensures |Inbound(peers - {id})| == |Inbound(peers)| - if peers[id].inbound then 1 else 0
  {
    assert Inbound(peers - {id}) == Inbound(peers) - {id};
  }

  /**
   * The inbound count is right, and limits hold for everyone admitted without an exemption: at most `maxPeers` peers
   * that were neither trusted nor static (`exempt`), and at most `maxInbound` inbound ones that were not trusted
   * (`vouched`).
   */
  ghost predicate PeersOk(peers: Peers, count: int, exempt: set<NodeId>, vouched: set<NodeId>, maxPeers: nat,
      maxInbound: nat)
  {
    && count == |Inbound(peers)|
    && |peers.Keys - exempt| <= maxPeers
    && |Inbound(peers) - vouched| <= maxInbound
  }

  lemma PeersPut(peers: Peers, count: int, exempt: set<NodeId>, vouched: set<NodeId>, maxPeers: nat, maxInbound: nat,
      id: NodeId, p: Peer)
    requires PeersOk(peers, count, exempt, vouched, maxPeers, maxInbound) && id !in peers
    requires p.trusted || p.staticDialed || |peers| < maxPeers
    requires p.trusted || !p.inbound || count < maxInbound
    ensures PeersOk(peers[id := p], count + if p.inbound then 1 else 0, Marked(exempt, id, p.trusted || p.staticDialed),
      Marked(vouched, id, p.trusted), maxPeers, maxInbound)
  {
    hide Marked;
    InboundPut(peers, id, p);
    KeysPut(peers, id, p);
    OneMore(peers.Keys, exempt, id, p.trusted || p.staticDialed);
    OneMore(Inbound(peers), vouched, id, p.trusted);
    hide Inbound;
  }

  lemma KeysPut(peers: Peers, id: NodeId, p: Peer)
    requires id !in peers
    ensures peers[id := p].Keys == peers.Keys + {id} && |peers.Keys| == |peers| && id !in Inbound(peers)
    ensures Inbound(peers[id := p]) == if p.inbound then Inbound(peers) + {id} else Inbound(peers)
  {
  }

  function Marked(s: set<NodeId>, id: NodeId, on: bool): set<NodeId> {
    if on then s + {id} else s - {id}
  }

  lemma OneMore(s: set<NodeId>, m: set<NodeId>, id: NodeId, on: bool)
    requires id !in s
    ensures on ==> |s + {id} - Marked(m, id, on)| <= |s - m|
    ensures |s + {id} - Marked(m, id, on)| <= |s| + 1
    ensures s - Marked(m, id, on) == s - m
  {
    Fewer(s + {id} - Marked(m, id, on), s + {id});
    if on {
      assert s + {id} - Marked(m, id, on) == s - m;
    }
  }

  lemma PeersDrop(peers: Peers, count: int, exempt: set<NodeId>, vouched: set<NodeId>, maxPeers: nat, maxInbound: nat,
      id: NodeId)
    requires PeersOk(peers, count, exempt, vouched, maxPeers, maxInbound) && id in peers
    ensures PeersOk(peers - {id}, count - if peers[id].inbound then 1 else 0, exempt, vouched, maxPeers, maxInbound)
  {
    InboundDrop(peers, id);
    Fewer((peers - {id}).Keys - exempt, peers.Keys - exempt);
    Fewer(Inbound(peers - {id}) - vouched, Inbound(peers) - vouched);
  }

  lemma PeersTrust(peers: Peers, count: int, exempt: set<NodeId>, vouched: set<NodeId>, maxPeers: nat, maxInbound: nat,
      id: NodeId, on: bool, dialing: map<NodeId, Flag>)
    requires PeersOk(peers, count, exempt, vouched, maxPeers, maxInbound) && id in peers
    ensures var peers' := peers[id := peers[id].(trusted := on)];
      PeersOk(peers', count, exempt, vouched, maxPeers, maxInbound)
        && DynNodes(peers', dialing) == DynNodes(peers, dialing)
  {
    var peers' := peers[id := peers[id].(trusted := on)];
    assert peers'.Keys == peers.Keys && Inbound(peers') == Inbound(peers) && DynPeers(peers') == DynPeers(peers);
  }

  /** The quotient of natural numbers. */
  function Share(n: nat, k: nat): (r: nat)
    requires k > 0
    ensures r <= n && r * k <= n < r * k + k
  {
    if n < k then 0 else
      var r := Share(n - k, k);
      assert (r + 1) * k == r * k + k;
      r + 1
  }

  /** Whom a sequence of events leaves trusted. */
  function TrustAfter(trusted: set<NodeId>, events: seq<(Event, int, seq<Node>)>): set<NodeId> {
    if events == [] then trusted
    else
      var before := TrustAfter(trusted, events[..|events| - 1]);
      match events[|events| - 1].0
      case TrustAdded(id) => before + {id}
      case TrustRemoved(id) => before - {id}
      case _ => before
  }

  class Server {
    const maxPeers: nat
    const dialRatio: nat
    const noDial: bool  // dialing or discovery is switched off
    const localId: NodeId
    const dialer: DialState
    const protocols: nat

    var peers: Peers
    var inboundCount: int
    var trusted: set<NodeId>
    var running: seq<Task>
    var queued: seq<Task>

    ghost var created: seq<Task>
    ghost var started: seq<Task>
    ghost var finished: seq<Task>
    ghost var exempt: set<NodeId>
    ghost var vouched: set<NodeId>

    /** Each task is started once, in the order of creation, and runs until it is finished. */
    ghost predicate TasksOk()
      reads this`running, this`queued, this`created, this`started, this`finished
    {
      && |running| <= MAX_ACTIVE_DIAL_TASKS
      && created == started + queued
      && multiset(started) == multiset(running) + multiset(finished)
    }

    ghost predicate Valid()
      reads this, dialer
    {
      && dialer.Valid() && TasksOk()
      && Outstanding(running + queued, dialer.State())
      && |DynNodes(peers, dialer.dialing)| <= dialer.maxDynDials
      && PeersOk(peers, inboundCount, exempt, vouched, maxPeers, MaxInboundConns())
    }

    constructor (d: DialState, maxPeers: nat, dialRatio: nat, noDial: bool, id: NodeId, protocols: nat,
        trustedNodes: set<NodeId>)
      requires d.Valid() && d.State() == Sched(map[], false)
      ensures Valid() && fresh(this) && dialer == d && peers == map[] && created == [] && trusted == trustedNodes
      ensures this.maxPeers == maxPeers && this.dialRatio == dialRatio && this.noDial == noDial
      ensures localId == id && this.protocols == protocols
    {
      dialer, this.maxPeers, this.dialRatio, this.noDial, localId, this.protocols := d, maxPeers, dialRatio, noDial,
        id, protocols;
      peers, inboundCount, trusted := map[], 0, trustedNodes;
      running, queued, created, started, finished, exempt, vouched := [], [], [], [], [], {}, {};
      new;
      assert DynNodes(map[], map[]) == {} && Inbound(map[]) == {};
    }

    // ---- tasks ----

    /** Starts tasks from the front while fewer than 16 run; returns the others. */
    method StartTasks(ts: seq<Task>) returns (rest: seq<Task>, ghost k: nat)
      requires |running| <= MAX_ACTIVE_DIAL_TASKS
      modifies this`running, this`started
      ensures k <= |ts| && rest == ts[k..] && running == old(running) + ts[..k] && started == old(started) + ts[..k]
      ensures |running| <= 16 && (|running| == 16 || rest == [])
    {
      var i := 0;
      while |running| < MAX_ACTIVE_DIAL_TASKS && i < |ts|
        invariant 0 <= i <= |ts| && running == old(running) + ts[..i] && started == old(started) + ts[..i]
        invariant |running| <= MAX_ACTIVE_DIAL_TASKS
      {
        assert ts[..i + 1] == ts[..i] + [ts[i]];
        running, started := running + [ts[i]], started + [ts[i]];
        i := i + 1;
      }
      k := i;
      rest := ts[i..];
    }

    /** Nothing is left to start: static nodes have been tried, and a lookup runs unless there are candidates enough. */
    ghost predicate Scheduled()
      reads this`peers, dialer`dialing, dialer`hist, dialer`statics, dialer`lookupRunning, dialer`lookupBuf
    {
      && dialer.StaticsTried(peers)
      && (dialer.lookupRunning
          || |dialer.lookupBuf| >= dialer.maxDynDials - |DynPeers(peers)| - |DynDials(dialer.dialing)|)
    }

    /** Starts queued tasks, then asks for new ones if some may still run. */
    method ScheduleTasks(now: int, random: seq<Node>)
      requires Valid()
      modifies this`running, this`queued, this`created, this`started, dialer
      ensures Valid() && (|running| == 16 || queued == [])
      ensures old(created) <= created && old(started) <= started && old(running) <= running
      ensures |running| < 16 ==> Scheduled()
    {
      StartQueued();
      if |running| < MAX_ACTIVE_DIAL_TASKS {
        StartNew(now, random);
      }
    }

    method StartQueued()
      requires Valid()
      modifies this`running, this`queued, this`started
      ensures Valid() && (|running| == MAX_ACTIVE_DIAL_TASKS || queued == [])
      ensures old(started) <= started && old(running) <= running
    {
      hide Outstanding, DynNodes, PeersOk, MaxInboundConns;
      ghost var r, s, q := running, started, queued;
      ghost var k;
      queued, k := StartTasks(queued);
      SplitAt(r, q, k);
      SplitAt(s, q, k);
    }

    method StartNew(now: int, random: seq<Node>)
      requires Valid() && queued == [] && |running| < MAX_ACTIVE_DIAL_TASKS
      modifies this`running, this`queued, this`created, this`started, dialer
      ensures Valid() && (|running| == 16 || queued == []) && Scheduled()
      ensures old(created) <= created && old(started) <= started && old(running) <= running
    {
      hide Outstanding, DynNodes, PeersOk, MaxInboundConns, Scheduled;
      ghost var r, s, c := running, started, created;
      var nt := AskNew(now, random);
      var rest;
      ghost var k;
      rest, k := StartTasks(nt);
      queued, created := queued + rest, created + nt;
      SplitAt(r, nt, k);
      SplitAt(s, nt, k);
      assert queued == nt[k..] && c == s + [] == s;
    }

    /** Asks the scheduler, which records what it hands out. */
    method AskNew(now: int, random: seq<Node>) returns (nt: seq<Task>)
      requires Valid() && queued == []
      modifies dialer
      ensures dialer.Valid() && Outstanding(running + nt, dialer.State()) && Scheduled()
      ensures |DynNodes(peers, dialer.dialing)| <= dialer.maxDynDials
    {
      hide Outstanding, DynNodes, DynDials, DynPeers, Emitted, FreshDials, Expired, PeersOk, TasksOk;
      hide dialer.StaticsTried, dialer.AllTried, dialer.BootTime;
      ghost var a := dialer.State();
      assert running + queued == running;
      ghost var boot;
      nt, boot := dialer.NewTasks(|running| + |queued|, peers, now, random);
      NewTasksKeep(running, a, dialer.State(), nt, peers, dialer.maxDynDials);
    }

    /** Takes a finished task off the list. */
    method DelTask(t: Task) returns (ghost i: nat)
      requires t in running
      modifies this`running
      ensures i < |old(running)| && old(running)[i] == t && running == old(running)[..i] + old(running)[i + 1..]
    {
      var k := 0;
      while running[k] != t
        invariant 0 <= k < |running| && t !in running[..k]
        decreases |running| - k
      {
        k := k + 1;
      }
      i := k;
      running := running[..k] + running[k + 1..];
    }

    /** A task got done. */
    method Finish(t: Task, now: int, results: seq<Node>)
      requires Valid() && t in running
      modifies this`running, this`finished, dialer
      ensures Valid() && finished == old(finished) + [t] && multiset(old(running)) == multiset(running) + multiset{t}
      ensures t.Dial? ==>
        && dialer.dialing == old(dialer.dialing) - {t.id}
        && multiset(dialer.hist) == multiset(old(dialer.hist)) + multiset{PastDial(t.id, now + 30)}
      ensures t == Discover ==> !dialer.lookupRunning && dialer.lookupBuf == old(dialer.lookupBuf) + results
    {
      hide Outstanding, DynNodes, DynDials, PeersOk, MaxInboundConns;
      ghost var a, r := dialer.State(), running;
      dialer.TaskDone(t, now, results);
      ghost var i := DelTask(t);
      OutstandingLess(r, queued, i, a, dialer.State());
      FinishKeeps(peers, a, t, dialer.maxDynDials);
      finished := finished + [t];
      RemovedOnce(r, i);
    }

    // ---- peers ----

    /** One peer in three may be dialed, unless another ratio is set; none without dialing. */
    function MaxDialedConns(): (n: nat)
      ensures n <= maxPeers && (noDial ==> n == 0)
      ensures !noDial && dialRatio == 0 ==> 3 * n <= maxPeers < 3 * n + 3
      ensures !noDial && dialRatio > 0 ==> n * dialRatio <= maxPeers < n * dialRatio + dialRatio
    {
      if noDial then 0 else Share(maxPeers, if dialRatio == 0 then DEFAULT_DIAL_RATIO else dialRatio)
    }

    function MaxInboundConns(): nat {
      maxPeers - MaxDialedConns()
    }

    function HandshakeChecks(id: NodeId, c: Peer): (r: Option<Disc>)
      reads this
      ensures r == Some(TooManyPeers) <==>
        || (!c.trusted && !c.staticDialed && |peers| >= maxPeers)
        || (!c.trusted && c.inbound && inboundCount + MaxDialedConns() >= maxPeers)
      ensures r == Some(Disc.AlreadyConnected) <==> r != Some(TooManyPeers) && id in peers
      ensures r == Some(DiscSelf) <==> r != Some(TooManyPeers) && id !in peers && id == localId
      ensures r == None <==> r != Some(TooManyPeers) && id !in peers && id != localId
    {
      if !(c.trusted || c.staticDialed) && |peers| >= maxPeers then Some(TooManyPeers)
      else if !c.trusted && c.inbound && inboundCount >= MaxInboundConns() then Some(TooManyPeers)
      else if id in peers then Some(Disc.AlreadyConnected)
      else if id == localId then Some(DiscSelf)
      else None
    }

    /** A connection is past its encryption handshake: trust is noted before the checks. */
    method PostHandshake(c: Conn) returns (c': Conn, err: Option<Disc>)
      ensures c' == c.(flags := c.flags.(trusted := c.flags.trusted || c.id in trusted))
      ensures err == HandshakeChecks(c'.id, c'.flags)
      ensures c.id in trusted ==> err != Some(TooManyPeers)
    {
      c' := c;
      if c.id in trusted {
        c' := c.(flags := c.flags.(trusted := true));
      }
      err := HandshakeChecks(c'.id, c'.flags);
    }

    /** A connection is past its handshakes; a dynamic one comes from a dial task that is not done yet. */
    method AddPeer(c: Conn, matching: nat) returns (err: Option<Disc>)
      requires Valid()
      requires c.flags.dynDialed ==> Dial(DynDialed, c.id) in running
      modifies this`peers, this`inboundCount, this`exempt, this`vouched
      ensures Valid()
      ensures peers == if err == None then old(peers)[c.id := c.flags] else old(peers)
      ensures err == if protocols > 0 && matching == 0 then Some(UselessPeer) else old(HandshakeChecks(c.id, c.flags))
    {
      hide Outstanding, PeersOk, DynDials, DynPeers, DynNodes, Inbound, MaxInboundConns, TasksOk;
      if protocols > 0 && matching == 0 {
        return Some(UselessPeer);
      }
      err := HandshakeChecks(c.id, c.flags);
      if err == None {
        PeersPut(peers, inboundCount, exempt, vouched, maxPeers, MaxInboundConns(), c.id, c.flags);
        SameDynNodes(running, queued, dialer.State(), peers, c);
        peers := peers[c.id := c.flags];
        if c.flags.inbound {
          inboundCount := inboundCount + 1;
        }
        exempt := Marked(exempt, c.id, c.flags.trusted || c.flags.staticDialed);
        vouched := Marked(vouched, c.id, c.flags.trusted);
      }
    }

    /** A peer disconnected. */
    method DelPeer(id: NodeId)
      requires Valid() && id in peers
      modifies this`peers, this`inboundCount
      ensures Valid() && peers == old(peers) - {id}
    {
      hide Outstanding, PeersOk, DynDials, MaxInboundConns, TasksOk;
      PeersDrop(peers, inboundCount, exempt, vouched, maxPeers, MaxInboundConns(), id);
      Fewer(DynNodes(peers - {id}, dialer.dialing), DynNodes(peers, dialer.dialing));
      var inbound := peers[id].inbound;
      peers := peers - {id};
      if inbound {
        inboundCount := inboundCount - 1;
      }
    }

    /** Trust is a flag of a connected peer, too. */
    method SetTrusted(id: NodeId, on: bool)
      requires Valid()
      modifies this`trusted, this`peers
      ensures Valid() && trusted == if on then old(trusted) + {id} else old(trusted) - {id}
      ensures peers == if id in old(peers) then old(peers)[id := old(peers)[id].(trusted := on)] else old(peers)
    {
      hide Outstanding, DynNodes, PeersOk, MaxInboundConns, TasksOk;
      trusted := if on then trusted + {id} else trusted - {id};
      if id in peers {
        PeersTrust(peers, inboundCount, exempt, vouched, maxPeers, MaxInboundConns(), id, on, dialer.dialing);
        peers := peers[id := peers[id].(trusted := on)];
      }
    }

    method AddStatic(n: Node)
      requires Valid()
      modifies dialer
      ensures Valid() && dialer.statics == old(dialer.statics)[n.id := n]
    {
      hide Outstanding, PeersOk, DynNodes, TasksOk, MaxInboundConns;
      dialer.AddStatic(n);
    }

    method RemoveStatic(n: Node)
      requires Valid()
      modifies dialer
      ensures Valid() && dialer.statics == old(dialer.statics) - {n.id}
    {
      hide Outstanding, PeersOk, DynNodes, TasksOk, MaxInboundConns, Recent;
      dialer.RemoveStatic(n);
    }

    // ---- the loop ----

    /** Tasks finish while they run, dynamic connections come from running dials, peers leave once. */
    predicate Possible(e: Event)
      reads this
    {
      match e
      case TaskFinished(t, _) => t in running
      case Handshaken(c, _) => c.flags.dynDialed ==> Dial(DynDialed, c.id) in running
      case PeerGone(id) => id in peers
      case _ => true
    }

    /** What an event does to peers and trust, and which task it finishes. */
    twostate predicate Noted(e: Event)
      reads this`trusted, this`peers, this`finished
    {
      && trusted == (match e
        case TrustAdded(id) => old(trusted) + {id}
        case TrustRemoved(id) => old(trusted) - {id}
        case _ => old(trusted))
      && peers == (match e
        case TrustAdded(id) =>
          if id in old(peers) then old(peers)[id := old(peers)[id].(trusted := true)] else old(peers)
        case TrustRemoved(id) =>
          if id in old(peers) then old(peers)[id := old(peers)[id].(trusted := false)] else old(peers)
        case Handshaken(c, matching) =>
          if (protocols == 0 || matching > 0) && old(HandshakeChecks(c.id, c.flags)) == None
          then old(peers)[c.id := c.flags] else old(peers)
        case PeerGone(id) => old(peers) - {id}
        case _ => old(peers))
      && finished == old(finished) + if e.TaskFinished? then [e.t] else []
    }

    /** One turn: an event, then scheduling. */
    method Turn(e: Event, now: int, random: seq<Node>)
      requires Valid() && Possible(e)
      modifies this, dialer
      ensures Valid() && (|running| == 16 || queued == []) && Noted(e)
      ensures |running| < 16 ==> Scheduled()
      ensures old(created) <= created && old(started) <= started
    {
      hide Valid, Noted, Scheduled;
      Handle(e, now);
      ScheduleTasks(now, random);
    }

    method Handle(e: Event, now: int)
      requires Valid() && Possible(e)
      modifies this, dialer
      ensures Valid() && created == old(created) && started == old(started) && queued == old(queued) && Noted(e)
      ensures multiset(old(running)) == multiset(running) + if e.TaskFinished? then multiset{e.t} else multiset{}
      ensures e.StaticAdded? ==> dialer.statics == old(dialer.statics)[e.n.id := e.n]
      ensures e.StaticRemoved? ==> dialer.statics == old(dialer.statics) - {e.n.id}
      ensures e.TaskFinished? && e.t.Dial? ==> e.t.id !in dialer.dialing
      ensures e.TaskFinished? && e.t == Discover ==> dialer.lookupBuf == old(dialer.lookupBuf) + e.results
    {
      hide Valid;
      match e {
        case StaticAdded(n) => AddStatic(n);
        case StaticRemoved(n) => RemoveStatic(n);
        case TrustAdded(id) => SetTrusted(id, true);
        case TrustRemoved(id) => SetTrusted(id, false);
        case TaskFinished(t, results) => Finish(t, now, results);
        case Encrypted(c) =>
          var c', err := PostHandshake(c);
        case Handshaken(c, matching) =>
          var err := AddPeer(c, matching);
        case PeerGone(id) => DelPeer(id);
        case PeersAsked =>
      }
    }

    /**
     * Tasks are scheduled once before the first event. However events come, the limits hold, and no
     * task is lost or started twice.
     */
    method Run(now: int, random: seq<Node>, events: seq<(Event, int, seq<Node>)>)
      requires Valid()
      modifies this, dialer
      ensures Valid() && (|running| == 16 || queued == [])
      ensures old(created) <= created && old(started) <= started && old(finished) <= finished
      ensures trusted == TrustAfter(old(trusted), events)
    {
      hide Valid, Scheduled, Outstanding, DynNodes, PeersOk;
      ScheduleTasks(now, random);
      assert events[..0] == [];
      for i := 0 to |events|
        invariant trusted == TrustAfter(old(trusted), events[..i]) && old(finished) <= finished
        invariant Valid() && (|running| == 16 || queued == [])
        invariant old(created) <= created && old(started) <= started
      {
        var (e, now, random) := events[i];
        assert events[..i + 1][..i] == events[..i];
        if Possible(e) {
          Turn(e, now, random);
        }
      }
      assert events[..|events|] == events;
    }
  }
}
