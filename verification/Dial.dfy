/** The dial scheduler: which nodes are dialed next. */
module Dialing {
  import opened Types
  import opened Heaps

  const DIAL_HISTORY_EXPIRATION: int := 30
  const FALLBACK_INTERVAL: int := 20

  type NodeId(==, !new, 0)
  type Ip(==, !new, 0)

  datatype Node = Node(id: NodeId, ip: Ip)

  datatype Flag = DynDialed | StaticDialed

  datatype Task = Dial(flag: Flag, id: NodeId) | Discover | Wait

  datatype PastDial = PastDial(id: NodeId, exp: int)

  datatype Peer = Peer(dynDialed: bool, staticDialed: bool, inbound: bool, trusted: bool)

  type Peers = map<NodeId, Peer>

  datatype DialError = AlreadyDialing | AlreadyConnected | IsSelf | NotWhitelisted | RecentlyDialed

  // ---- the dial history ----

  function Exp(): PastDial -> int {
    (d: PastDial) => d.exp
  }

  ghost predicate Recent(hist: seq<PastDial>, id: NodeId) {
    exists i :: 0 <= i < |hist| && hist[i].id == id
  }

  method Contains(hist: seq<PastDial>, id: NodeId) returns (b: bool)
    ensures b <==> Recent(hist, id)
  {
    for i := 0 to |hist|
      invariant forall j :: 0 <= j < i ==> hist[j].id != id
    {
      if hist[i].id == id {
        return true;
      }
    }
    return false;
  }

  /** What is left of the history once older entries have expired. */
  ghost predicate Expired(hist: seq<PastDial>, hist': seq<PastDial>, now: int) {
    forall d :: multiset(hist')[d] == if d.exp < now then 0 else multiset(hist)[d]
  }

  /** Takes off the root while it is old; since the root is the oldest entry, no old one stays. */
  method Expire(hist: seq<PastDial>, now: int) returns (r: seq<PastDial>)
    requires IsHeap(hist, Exp())
    ensures IsHeap(r, Exp()) && Expired(hist, r, now)
    ensures forall d :: multiset(r)[d] == if d.exp < now then 0 else multiset(hist)[d]
  {
    r := hist;
    while |r| > 0 && r[0].exp < now
      invariant IsHeap(r, Exp())
      invariant forall d ::
        multiset(r)[d] <= multiset(hist)[d] && (d.exp >= now ==> multiset(r)[d] == multiset(hist)[d])
      decreases |r|
    {
      r := RemoveAt(r, Exp(), 0);
    }
    forall d | d in r ensures d.exp >= now {
      var k :| 0 <= k < |r| && r[k] == d;
      RootIsMin(r, Exp(), k);
    }
    assert forall d :: multiset(r)[d] > 0 ==> d in r;
  }

  /** Forgets one dial of a node. */
  method RemovePast(hist: seq<PastDial>, id: NodeId) returns (r: seq<PastDial>, found: bool)
    requires IsHeap(hist, Exp())
    ensures IsHeap(r, Exp()) && (found <==> Recent(hist, id)) && (!found ==> r == hist)
    ensures found ==> exists d :: d in hist && d.id == id && multiset(hist) == multiset(r) + multiset{d}
  {
    for i := 0 to |hist|
      invariant forall j :: 0 <= j < i ==> hist[j].id != id
    {
      if hist[i].id == id {
        r := RemoveAt(hist, Exp(), i);
        assert hist[i] in hist && multiset(hist) == multiset(r) + multiset{hist[i]};
        return r, true;
      }
    }
    return hist, false;
  }

  // ---- what a call hands out ----

  datatype Sched = Sched(dialing: map<NodeId, Flag>, lookup: bool)

  /** `ts` are exactly the dials and lookups that `b` has and `a` has not. */
  ghost predicate Emitted(a: Sched, b: Sched, ts: seq<Task>) {
    && NoDup(ts)
    && (forall id :: id in a.dialing ==> id in b.dialing && b.dialing[id] == a.dialing[id])
    && (forall f, id :: Dial(f, id) in ts <==> id !in a.dialing && id in b.dialing && b.dialing[id] == f)
    && (Discover in ts <==> !a.lookup && b.lookup) && (a.lookup ==> b.lookup)
  }

  /** No task dials a node that is connected, or was dialed not long ago. */
  ghost predicate FreshDials(ts: seq<Task>, peers: Peers, hist: seq<PastDial>) {
    forall f, id :: Dial(f, id) in ts ==> id !in peers && !Recent(hist, id)
  }

  ghost predicate Fresh(ts: seq<Task>, peers: Peers, hist: seq<PastDial>) {
    FreshDials(ts, peers, hist) && Wait !in ts
  }

  lemma EmitDial(a: Sched, b: Sched, ts: seq<Task>, f: Flag, id: NodeId)
    requires Emitted(a, b, ts) && id !in b.dialing
    ensures Emitted(a, b.(dialing := b.dialing[id := f]), ts + [Dial(f, id)])
  {
    var ts' := ts + [Dial(f, id)];
    assert forall t :: t in ts' <==> t in ts || t == Dial(f, id);
    assert Dial(f, id) !in ts;
  }

  lemma EmitLookup(a: Sched, b: Sched, ts: seq<Task>)
    requires Emitted(a, b, ts) && !b.lookup
    ensures Emitted(a, b.(lookup := true), ts + [Discover])
  {
    var ts' := ts + [Discover];
    assert forall t :: t in ts' <==> t in ts || t == Discover;
    assert Discover !in ts;
  }

  lemma StartEmitting(a: Sched, peers: Peers, hist: seq<PastDial>)
    ensures Emitted(a, a, []) && Fresh([], peers, hist)
  {
  }

  lemma StillFresh(ts: seq<Task>, t: Task, peers: Peers, hist: seq<PastDial>)
    requires Fresh(ts, peers, hist) && !t.Dial?
    ensures FreshDials(ts, peers, hist) && Wait !in ts
    ensures FreshDials(ts + [t], peers, hist) && (t != Wait ==> Fresh(ts + [t], peers, hist))
  {
    assert forall x :: x in ts + [t] <==> x in ts || x == t;
  }

  lemma EmitWait(a: Sched, b: Sched)
    requires Emitted(a, b, [])
    ensures Emitted(a, b, [Wait])
  {
    assert forall x :: x in [Wait] <==> x == Wait;
    assert forall f, id :: Dial(f, id) !in [];
  }

  ghost function DynPeers(peers: Peers): set<NodeId> {
    set id | id in peers && peers[id].dynDialed
  }

  ghost function DynDials(dialing: map<NodeId, Flag>): set<NodeId> {
    set id | id in dialing && dialing[id] == DynDialed
  }

  lemma OneMoreDial(dialing: map<NodeId, Flag>, f: Flag, id: NodeId)
    requires id !in dialing
    ensures |DynDials(dialing[id := f])| == |DynDials(dialing)| + if f == DynDialed then 1 else 0
  {
    assert DynDials(dialing[id := f]) == DynDials(dialing) + if f == DynDialed then {id} else {};
  }

  method CountDynPeers(peers: Peers) returns (n: nat)
    ensures n == |DynPeers(peers)|
  {
    n := 0;
    var left := peers.Keys;
    ghost var seen := {};
    while left != {}
      invariant left <= peers.Keys && seen == (set id | id in peers && id !in left && peers[id].dynDialed)
        && n == |seen|
      decreases |left|
    {
      var id :| id in left;
      left := left - {id};
      if peers[id].dynDialed {
        n, seen := n + 1, seen + {id};
      }
    }
    assert seen == DynPeers(peers);
  }

  method CountDynDials(dialing: map<NodeId, Flag>) returns (n: nat)
    ensures n == |DynDials(dialing)|
  {
    n := 0;
    var left := dialing.Keys;
    ghost var seen := {};
    while left != {}
      invariant left <= dialing.Keys && seen == (set id | id in dialing && id !in left && dialing[id] == DynDialed)
        && n == |seen|
      decreases |left|
    {
      var id :| id in left;
      left := left - {id};
      if dialing[id] == DynDialed {
        n, seen := n + 1, seen + {id};
      }
    }
    assert seen == DynDials(dialing);
  }

  class DialState {
    const maxDynDials: nat
    const hasTable: bool
    const self: NodeId
    const whitelist: Option<set<Ip>>

    var lookupRunning: bool
    var dialing: map<NodeId, Flag>
    var lookupBuf: seq<Node>
    var statics: map<NodeId, Node>
    var hist: seq<PastDial>
    var start: Option<int>
    var bootnodes: seq<Node>

    ghost function State(): Sched
      reads this
    {
      Sched(dialing, lookupRunning)
    }

    ghost predicate Valid()
      reads this
    {
      IsHeap(hist, Exp()) && forall id :: id in statics ==> statics[id].id == id
    }

    constructor (self: NodeId, nodes: seq<Node>, bootnodes: seq<Node>, hasTable: bool, maxDyn: nat,
        whitelist: Option<set<Ip>>)
      ensures Valid() && State() == Sched(map[], false) && maxDynDials == maxDyn && hist == [] && lookupBuf == []
      ensures forall id :: id in statics <==> exists i :: 0 <= i < |nodes| && nodes[i].id == id
      ensures forall id :: id in statics ==> statics[id] in nodes
      ensures this.self == self && this.hasTable == hasTable && this.whitelist == whitelist
      ensures this.bootnodes == bootnodes && start == None
    {
      this.self, this.bootnodes, this.hasTable, this.whitelist, maxDynDials := self, bootnodes, hasTable, whitelist,
        maxDyn;
      lookupRunning, dialing, lookupBuf, statics, hist, start := false, map[], [], map[], [], None;
      new;
      for i := 0 to |nodes|
        invariant Valid() && State() == Sched(map[], false) && hist == [] && lookupBuf == []
        invariant this.bootnodes == bootnodes && start == None && forall id :: id in statics ==> statics[id] in nodes
        invariant forall id :: id in statics <==> exists j :: 0 <= j < i && nodes[j].id == id
      {
        AddStatic(nodes[i]);
      }
    }

    method AddStatic(n: Node)
      requires Valid()
      modifies this`statics
      ensures Valid() && statics == old(statics)[n.id := n]
    {
      statics := statics[n.id := n];
    }

    method RemoveStatic(n: Node)
      requires Valid()
      modifies this`statics, this`hist
      ensures Valid() && statics == old(statics) - {n.id}
      ensures !Recent(old(hist), n.id) ==> hist == old(hist)
      ensures Recent(old(hist), n.id) ==>
        exists d :: d in old(hist) && d.id == n.id && multiset(old(hist)) == multiset(hist) + multiset{d}
    {
      statics := statics - {n.id};
      var found;
      hist, found := RemovePast(hist, n.id);
    }

    /** Why a node must not be dialed now, the first reason in this order. */
    method CheckDial(n: Node, peers: Peers) returns (err: Option<DialError>)
      ensures err == Some(AlreadyDialing) <==> n.id in dialing
      ensures err == Some(AlreadyConnected) <==> n.id !in dialing && n.id in peers
      ensures err == Some(IsSelf) <==> n.id !in dialing && n.id !in peers && hasTable && n.id == self
      ensures err == Some(NotWhitelisted) <==>
        n.id !in dialing && n.id !in peers && !(hasTable && n.id == self) && whitelist.Some? && n.ip !in whitelist.value
      ensures err in {Some(IsSelf), Some(NotWhitelisted)} <==> n.id !in dialing && n.id !in peers && Barred(n)
      ensures err == None <==> n.id !in dialing && n.id !in peers && !Barred(n) && !Recent(hist, n.id)
    {
      if n.id in dialing {
        return Some(AlreadyDialing);
      }
      if n.id in peers {
        return Some(AlreadyConnected);
      }
      if hasTable && n.id == self {
        return Some(IsSelf);
      }
      if whitelist.Some? && n.ip !in whitelist.value {
        return Some(NotWhitelisted);
      }
      var recent := Contains(hist, n.id);
      return if recent then Some(RecentlyDialed) else None;
    }

    predicate Barred(n: Node) {
      (hasTable && n.id == self) || (whitelist.Some? && n.ip !in whitelist.value)
    }

    /** Nothing is left to do for a node: it is being dialed or connected, or must not be dialed now. */
    ghost predicate Tried(n: Node, peers: Peers)
      reads this`dialing, this`hist
    {
      n.id in dialing || n.id in peers || Barred(n) || Recent(hist, n.id)
    }

    /** So it is for the first `k` of some nodes. */
    ghost predicate AllTried(nodes: seq<Node>, k: int, peers: Peers)
      reads this`dialing, this`hist
    {
      forall j :: 0 <= j < |nodes| && j < k ==> Tried(nodes[j], peers)
    }

    ghost predicate StaticsTried(peers: Peers)
      reads this`dialing, this`hist, this`statics
    {
      forall id :: id in statics ==> Tried(statics[id], peers)
    }

    /** More dials leave it so. */
    twostate lemma StillTried(new nodes: seq<Node>, new k: int, new peers: Peers)
      requires old(dialing).Keys <= dialing.Keys && hist == old(hist) && old(AllTried(nodes, k, peers))
      ensures AllTried(nodes, k, peers)
    {
      hide Recent;
      forall j | 0 <= j < |nodes| && j < k ensures Tried(nodes[j], peers) {
        assert old(Tried(nodes[j], peers));
      }
    }

    twostate lemma StaticsStill(new peers: Peers)
      requires old(dialing).Keys <= dialing.Keys && hist == old(hist) && statics == old(statics)
      requires old(StaticsTried(peers))
      ensures StaticsTried(peers)
    {
      hide Recent;
      forall id | id in statics ensures Tried(statics[id], peers) {
        assert old(Tried(statics[id], peers));
      }
    }

    /** Marks a node as being dialed, and hands out its dial task. */
    method Emit(flag: Flag, id: NodeId, peers: Peers, ts: seq<Task>, ghost a: Sched) returns (ts': seq<Task>)
      requires Emitted(a, State(), ts) && Fresh(ts, peers, hist) && id !in dialing && id !in peers && !Recent(hist, id)
      modifies this`dialing
      ensures Emitted(a, State(), ts') && Fresh(ts', peers, hist)
      ensures ts' == ts + [Dial(flag, id)] && dialing == old(dialing)[id := flag]
      ensures |DynDials(dialing)| == |DynDials(old(dialing))| + if flag == DynDialed then 1 else 0
    {
      hide Emitted, DynDials;
      EmitDial(a, State(), ts, flag, id);
      OneMoreDial(dialing, flag, id);
      dialing := dialing[id := flag];
      ts' := ts + [Dial(flag, id)];
      assert forall t :: t in ts' <==> t in ts || t == Dial(flag, id);
    }

    method AddDial(n: Node, peers: Peers, ts: seq<Task>, ghost a: Sched) returns (ok: bool, ts': seq<Task>)
      requires Emitted(a, State(), ts) && Fresh(ts, peers, hist)
      modifies this`dialing
      ensures Emitted(a, State(), ts') && Fresh(ts', peers, hist)
      ensures |DynDials(dialing)| == |DynDials(old(dialing))| + if ok then 1 else 0
      ensures ok <==> n.id !in old(dialing) && n.id !in peers && !Barred(n) && !Recent(hist, n.id)
      ensures dialing == if ok then old(dialing)[n.id := DynDialed] else old(dialing)
      ensures Tried(n, peers)
    {
      hide Emitted, DynDials;
      var err := CheckDial(n, peers);
      if err.Some? {
        return false, ts;
      }
      ts' := Emit(DynDialed, n.id, peers, ts, a);
      ok := true;
    }

    /** Dials every static node that may be dialed, and forgets those that never may. */
    method DialStatics(peers: Peers, ghost a: Sched) returns (ts: seq<Task>)
      requires Valid() && a == State()
      modifies this`dialing, this`statics
      ensures Valid() && Emitted(a, State(), ts) && Fresh(ts, peers, hist)
      ensures |DynDials(dialing)| == |DynDials(old(dialing))|
      ensures forall id :: id in statics ==> id in old(statics) && statics[id] == old(statics)[id]
      ensures forall id :: id in old(statics) && id !in statics ==> Barred(old(statics)[id])
      ensures StaticsTried(peers)
    {
      hide Emitted, DynDials, Fresh, Recent;
      ts := [];
      StartEmitting(State(), peers, hist);
      var left := statics.Keys;
      while left != {}
        invariant Valid() && left <= statics.Keys
        invariant Emitted(a, State(), ts) && Fresh(ts, peers, hist)
        invariant |DynDials(dialing)| == |DynDials(old(dialing))|
        invariant forall id :: id in statics ==> id in old(statics) && statics[id] == old(statics)[id]
        invariant forall id :: id in old(statics) && id !in statics ==> Barred(old(statics)[id])
        invariant forall id :: id in statics && id !in left ==> Tried(statics[id], peers)
        decreases |left|
      {
        var id :| id in left;
        left := left - {id};
        var n := statics[id];
        var err := CheckDial(n, peers);
        if err == Some(NotWhitelisted) || err == Some(IsSelf) {
          statics := statics - {id};
        } else if err == None {
          ts := Emit(StaticDialed, id, peers, ts, a);
        }
      }
    }

    /** Dials from the front of a list of candidates, at most `limit` of them. */
    method DialSome(nodes: seq<Node>, limit: int, peers: Peers, ts: seq<Task>, ghost a: Sched)
      returns (ts': seq<Task>, dialed: nat)
      requires Emitted(a, State(), ts) && Fresh(ts, peers, hist)
      modifies this`dialing
      ensures Emitted(a, State(), ts') && Fresh(ts', peers, hist)
      ensures |DynDials(dialing)| == |DynDials(old(dialing))| + dialed && (dialed == 0 || dialed <= limit)
      ensures AllTried(nodes, limit, peers)
      ensures old(dialing).Keys <= dialing.Keys
    {
      hide Emitted, DynDials, Fresh, Recent;
      ts', dialed := ts, 0;
      var i := 0;
      while i < limit && i < |nodes|
        invariant 0 <= i <= |nodes| && (i <= limit || i == 0) && dialed <= i
        invariant forall j :: 0 <= j < i ==> Tried(nodes[j], peers)
        invariant old(dialing).Keys <= dialing.Keys
        invariant Emitted(a, State(), ts') && Fresh(ts', peers, hist)
        invariant |DynDials(dialing)| == |DynDials(old(dialing))| + dialed
      {
        var ok;
        ok, ts' := AddDial(nodes[i], peers, ts', a);
        if ok {
          dialed := dialed + 1;
        }
        i := i + 1;
      }
    }

    /** Dials lookup results until enough nodes are being dialed; tried results are dropped. */
    method DialFound(need: int, peers: Peers, ts: seq<Task>, ghost a: Sched) returns (ts': seq<Task>, need': int)
      requires Emitted(a, State(), ts) && Fresh(ts, peers, hist)
      modifies this`dialing, this`lookupBuf
      ensures Emitted(a, State(), ts') && Fresh(ts', peers, hist)
      ensures need' + |DynDials(dialing)| == need + |DynDials(old(dialing))| && (need' == need || need' >= 0)
      ensures |lookupBuf| <= |old(lookupBuf)| && lookupBuf == old(lookupBuf)[|old(lookupBuf)| - |lookupBuf|..]
      ensures need' > 0 ==> lookupBuf == []
      ensures need <= 0 ==> lookupBuf == old(lookupBuf)
      ensures AllTried(old(lookupBuf), |old(lookupBuf)| - |lookupBuf|, peers)
      ensures old(dialing).Keys <= dialing.Keys
    {
      hide Emitted, DynDials, Fresh, Recent;
      ts', need' := ts, need;
      var i := 0;
      while i < |lookupBuf| && need' > 0
        invariant 0 <= i <= |lookupBuf| && lookupBuf == old(lookupBuf) && (need <= 0 ==> i == 0)
        invariant forall j :: 0 <= j < i ==> Tried(lookupBuf[j], peers)
        invariant old(dialing).Keys <= dialing.Keys
        invariant Emitted(a, State(), ts') && Fresh(ts', peers, hist)
        invariant need' + |DynDials(dialing)| == need + |DynDials(old(dialing))| && (need' == need || need' >= 0)
      {
        var ok;
        ok, ts' := AddDial(lookupBuf[i], peers, ts', a);
        if ok {
          need' := need' - 1;
        }
        i := i + 1;
      }
      lookupBuf := lookupBuf[i..];
    }

    /** How many more nodes should be dialed; negative if there are too many. */
    method NeedDynDials(peers: Peers) returns (need: int)
      ensures need == maxDynDials - |DynPeers(peers)| - |DynDials(dialing)|
    {
      var dynPeers := CountDynPeers(peers);
      var dynDials := CountDynDials(dialing);
      need := maxDynDials - dynPeers - dynDials;
    }

    /** With no peers at all, the next bootnode is dialed after twenty seconds. */
    predicate BootTime(need: int, peers: Peers, now: int)
      reads this`bootnodes, this`start
    {
      peers == map[] && bootnodes != [] && need > 0 && start.Some? && now - start.value > 20
    }

    method DialBootnode(need: int, peers: Peers, now: int, ts: seq<Task>, ghost a: Sched)
      returns (ts': seq<Task>, dialed: nat)
      requires Emitted(a, State(), ts) && Fresh(ts, peers, hist) && start.Some?
      modifies this`dialing, this`bootnodes
      ensures Emitted(a, State(), ts') && Fresh(ts', peers, hist)
      ensures |DynDials(dialing)| == |DynDials(old(dialing))| + dialed && dialed <= 1
        && (dialed == 0 || (dialed <= need && peers == map[]))
      ensures multiset(bootnodes) == multiset(old(bootnodes))
      ensures old(BootTime(need, peers, now)) ==>
        && bootnodes == old(bootnodes)[1..] + [old(bootnodes)[0]] && AllTried(old(bootnodes), 1, peers)
        && dialed == |dialing| - |old(dialing)|
      ensures !old(BootTime(need, peers, now)) ==>
        bootnodes == old(bootnodes) && dialing == old(dialing) && ts' == ts && dialed == 0
      ensures old(dialing).Keys <= dialing.Keys
    {
      hide Emitted, DynDials, Fresh, Recent;
      ts', dialed := ts, 0;
      if |peers| == 0 && |bootnodes| > 0 && need > 0 && now - start.value > FALLBACK_INTERVAL {
        var bootnode := bootnodes[0];
        assert bootnodes == [bootnode] + bootnodes[1..];
        bootnodes := bootnodes[1..] + [bootnode];
        var ok;
        ok, ts' := AddDial(bootnode, peers, ts, a);
        dialed := if ok then 1 else 0;
      }
    }

    /** Dials dynamic nodes: a bootnode, random nodes for half of what is needed, then lookup results. */
    method DialMore(need: int, peers: Peers, now: int, random: seq<Node>, ts: seq<Task>, ghost a: Sched)
      returns (ts': seq<Task>, need': int, ghost boot: nat)
      requires Emitted(a, State(), ts) && Fresh(ts, peers, hist) && start.Some?
      modifies this`dialing, this`bootnodes, this`lookupBuf
      ensures Emitted(a, State(), ts') && Fresh(ts', peers, hist) && old(dialing).Keys <= dialing.Keys
      ensures need' + |DynDials(dialing)| == need + |DynDials(old(dialing))| && (need' == need || need' >= 0)
      ensures |lookupBuf| <= |old(lookupBuf)| && lookupBuf == old(lookupBuf)[|old(lookupBuf)| - |lookupBuf|..]
      ensures need' > 0 ==> lookupBuf == []
      ensures AllTried(old(lookupBuf), |old(lookupBuf)| - |lookupBuf|, peers)
      ensures boot <= 1 && AllTried(random, (need - boot) / 2, peers)
      ensures if old(BootTime(need, peers, now))
        then AllTried(old(bootnodes), 1, peers) && bootnodes == old(bootnodes)[1..] + [old(bootnodes)[0]]
        else bootnodes == old(bootnodes) && boot == 0
    {
      hide Emitted, DynDials, Fresh, AllTried;
      var dialed;
      ts', dialed := DialBootnode(need, peers, now, ts, a);
      boot := dialed;
      need' := need - dialed;
      label bootnodesTried:
      ts', dialed := DialSome(random, need' / 2, peers, ts', a);
      need' := need' - dialed;
      label randomTried:
      ts', need' := DialFound(need', peers, ts', a);
      StillTried@randomTried(random, (need - boot) / 2, peers);
      if old(BootTime(need, peers, now)) {
        StillTried@bootnodesTried(old(bootnodes), 1, peers);
      }
    }

    /** What to start next; `random` are the nodes the discovery table offers. */
    method NewTasks(running: nat, peers: Peers, now: int, random: seq<Node>) returns (ts: seq<Task>, ghost boot: nat)
      requires Valid()
      modifies this
      ensures Valid() && Emitted(old(State()), State(), ts) && FreshDials(ts, peers, hist)
      ensures Expired(old(hist), hist, now)
      ensures |DynDials(dialing)| == |DynDials(old(dialing))| || |DynDials(dialing)| + |DynPeers(peers)| <= maxDynDials
      ensures lookupRunning <==>
        old(lookupRunning) || |lookupBuf| < maxDynDials - |DynPeers(peers)| - |DynDials(dialing)|
      ensures Wait in ts ==> running == 0 && ts == [Wait]
      ensures running == 0 && hist != [] ==> ts != []
      ensures start == if old(start).None? then Some(now) else old(start)
      ensures forall id :: id in statics ==> id in old(statics) && statics[id] == old(statics)[id]
      ensures StaticsTried(peers) && forall id :: id in old(statics) && id !in statics ==> Barred(old(statics)[id])
      ensures |lookupBuf| <= |old(lookupBuf)| && lookupBuf == old(lookupBuf)[|old(lookupBuf)| - |lookupBuf|..]
      ensures AllTried(old(lookupBuf), |old(lookupBuf)| - |lookupBuf|, peers)
      ensures lookupBuf != [] ==> |DynPeers(peers)| + |DynDials(dialing)| >= maxDynDials
      ensures var need := maxDynDials - |DynPeers(peers)| - |DynDials(old(dialing))|;
        boot <= 1 && AllTried(random, (need - boot) / 2, peers)
      ensures var need := maxDynDials - |DynPeers(peers)| - |DynDials(old(dialing))|;
        if old(BootTime(need, peers, now))
        then AllTried(old(bootnodes), 1, peers) && bootnodes == old(bootnodes)[1..] + [old(bootnodes)[0]]
        else bootnodes == old(bootnodes) && boot == 0
    {
      hide Emitted, DynDials, DynPeers, Fresh, FreshDials, Expired, IsHeap, AllTried, StaticsTried;
      ghost var a := State();
      if start.None? {
        start := Some(now);
      }
      var need := NeedDynDials(peers);
      hist := Expire(hist, now);
      ts := DialStatics(peers, a);
      label staticsTried:
      ts, need, boot := DialMore(need, peers, now, random, ts, a);
      StaticsStill@staticsTried(peers);
      if |lookupBuf| < need && !lookupRunning {
        EmitLookup(a, State(), ts);
        StillFresh(ts, Discover, peers, hist);
        lookupRunning := true;
        ts := ts + [Discover];
      }
      StillFresh(ts, Wait, peers, hist);
      if running == 0 && |ts| == 0 && |hist| > 0 {
        EmitWait(a, State());
        assert ts + [Wait] == [Wait];
        ts := ts + [Wait];
      }
    }

    /** A finished dial is remembered and no longer in progress; lookup results are kept. */
    method TaskDone(t: Task, now: int, results: seq<Node>)
      requires Valid()
      modifies this`hist, this`dialing, this`lookupRunning, this`lookupBuf
      ensures Valid()
      ensures t.Dial? ==>
        && dialing == old(dialing) - {t.id}
        && multiset(hist) == multiset(old(hist)) + multiset{PastDial(t.id, now + 30)}
      ensures !t.Dial? ==> dialing == old(dialing) && hist == old(hist)
      ensures lookupRunning == (old(lookupRunning) && t != Discover)
      ensures lookupBuf == old(lookupBuf) + if t == Discover then results else []
    {
      match t {
        case Dial(flag, id) =>
          hist := Push(hist, Exp(), PastDial(id, now + DIAL_HISTORY_EXPIRATION));
          dialing := dialing - {id};
        case Discover =>
          lookupRunning := false;
          lookupBuf := lookupBuf + results;
        case Wait =>
      }
    }
  }
}
