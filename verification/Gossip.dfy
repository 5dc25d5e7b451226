/** Gossip: the sequence filter of one node, and a network of nodes that pass each message on once. */
module Gossip {
  import opened Text
  import opened Types

  const TYPE_STATUS := 5

  datatype Message = Message(kind: int, origin: string, seqNo: int, dest: string, body: string)

  datatype Packet = Packet(from: string, to: string, m: Message)

  /** One node: its key, the peers it sends to, the highest sequence number per sender and kind, what it processed. */
  datatype Node = Node(key: string, others: seq<string>, seqs: map<string, int>, processed: seq<Message>)

  function SeqKey(m: Message): string {
    IntText(m.kind) + "," + m.origin
  }

  function LastSeq(seqs: map<string, int>, m: Message): int {
    if SeqKey(m) in seqs then seqs[SeqKey(m)] else 0
  }

  function SendAll(from: string, others: seq<string>, m: Message): seq<Packet> {
    if others == [] then []
    else
      var pk := others[|others| - 1];
      SendAll(from, others[..|others| - 1], m) + if m.origin != pk then [Packet(from, pk, m)] else []
  }

  /** broadcast: on the final hop an addressed message goes to its destination only. */
  function Broadcast(from: string, others: seq<string>, m: Message, isFinalHop: bool): seq<Packet> {
    if isFinalHop && m.dest != "" then
      if m.dest != m.origin then [Packet(from, m.dest, m)] else []
    else SendAll(from, others, m)
  }

  /** A message is new if no message of its kind and origin with this or a later number was processed. */
  predicate IsNew(n: Node, m: Message) {
    LastSeq(n.seqs, m) < m.seqNo
  }

  function Receive(n: Node, m: Message): Node {
    if IsNew(n, m) then n.(seqs := n.seqs[SeqKey(m) := m.seqNo], processed := n.processed + [m]) else n
  }

  /** Only what comes straight from its origin is passed on, and only when it is new. */
  function Relay(n: Node, from: string, m: Message): seq<Packet> {
    if IsNew(n, m) && m.kind != TYPE_STATUS && from == m.origin then Broadcast(n.key, n.others, m, true) else []
  }

  /** The network object of a node: maps updated in place, sends collected. */
  class Network {
    const publicKey: string
    var arrayNetwork: seq<string>
    var arrayBroadcast: seq<string>
    var mapMsgSeq: map<string, int>
    var mapOnline: set<string>
    var isClosing: bool
    var sent: seq<Packet>
    ghost var processed: seq<Message>

    ghost function View(): Node
      reads this
    {
      Node(publicKey, arrayBroadcast, mapMsgSeq, processed)
    }

    constructor (publicKey: string)
      ensures this.publicKey == publicKey && View() == Node(publicKey, [], map[], [])
      ensures sent == [] && mapOnline == {} && arrayNetwork == [] && !isClosing
    {
      this.publicKey, arrayNetwork := publicKey, [];
      arrayBroadcast, mapMsgSeq, mapOnline, isClosing, sent, processed := [], map[], {}, false, [], [];
    }

    /** `from` is the sender's public key, looked up by its address; None if the address is unknown. */
    method IncomingData(m: Message, from: Option<string>, isValid: bool) returns (onMessage: bool)
      modifies this
      ensures onMessage <==>
        !old(isClosing) && old(arrayNetwork) != [] && from.Some? && isValid && IsNew(old(View()), m)
      ensures !onMessage ==> unchanged(this)
      ensures onMessage ==>
        && View() == Receive(old(View()), m) && isClosing == old(isClosing) && arrayNetwork == old(arrayNetwork)
        && sent == old(sent) + Relay(old(View()), from.value, m)
        && mapOnline == old(mapOnline) + {from.value}
    {
      if isClosing || |arrayNetwork| == 0 || from.None? || !isValid {
        return false;
      }
      var last := if SeqKey(m) in mapMsgSeq then mapMsgSeq[SeqKey(m)] else 0;
      if last >= m.seqNo {
        return false;
      }
      mapMsgSeq := mapMsgSeq[SeqKey(m) := m.seqNo];
      mapOnline := mapOnline + {from.value};
      processed := processed + [m];
      if m.kind != TYPE_STATUS && from.value == m.origin {
        DoBroadcast(m, true);
      }
      return true;
    }

    /** The network as the ledger has it: all peers sorted by public key, the others in some shuffled order. */
    method P2pNetwork(peers: seq<string>, shuffled: seq<string>, isReady: bool)
      requires Distinct(peers) && Distinct(shuffled) && forall x :: x in shuffled <==> x in peers && x != publicKey
      modifies this`arrayNetwork, this`arrayBroadcast, this`mapOnline
      ensures |peers| < 2 || !isReady ==> unchanged(this)
      ensures |peers| >= 2 && isReady ==>
        && Sorted(arrayNetwork) && (forall x :: x in arrayNetwork <==> x in peers)
        && arrayBroadcast == shuffled && mapOnline == old(mapOnline) + {publicKey}
    {
      if |peers| < 2 || !isReady {
        return;
      }
      SortTextsSorts(peers);
      arrayNetwork := SortTexts(peers);
      arrayBroadcast := shuffled;
      mapOnline := mapOnline + {publicKey};
    }

    method DoBroadcast(m: Message, isFinalHop: bool)
      modifies this`sent
      ensures sent == old(sent) + Broadcast(publicKey, arrayBroadcast, m, isFinalHop)
      ensures var extra := sent[|old(sent)|..];
        if isFinalHop && m.dest != "" then extra == if m.dest == m.origin then [] else [Packet(publicKey, m.dest, m)]
        else
          && (forall p :: p in extra ==> p == Packet(publicKey, p.to, m))
          && forall x :: multiset(extra)[Packet(publicKey, x, m)] ==
                         if x == m.origin then 0 else multiset(arrayBroadcast)[x]
    {
      hide SendAll;
      SendAllCounts(publicKey, arrayBroadcast, m);
      if isFinalHop && m.dest != "" {
        if m.dest != m.origin {
          sent := sent + [Packet(publicKey, m.dest, m)];
        }
      } else {
        SendToAll(m);
      }
    }

    method SendToAll(m: Message)
      modifies this`sent
      ensures sent == old(sent) + SendAll(publicKey, arrayBroadcast, m)
    {
      for i := 0 to |arrayBroadcast|
        invariant sent == old(sent) + SendAll(publicKey, arrayBroadcast[..i], m)
      {
        assert arrayBroadcast[..i + 1][..i] == arrayBroadcast[..i];
        if m.origin != arrayBroadcast[i] {
          sent := sent + [Packet(publicKey, arrayBroadcast[i], m)];
        }
      }
      assert arrayBroadcast[..|arrayBroadcast|] == arrayBroadcast;
    }
  }

  // ---------- the network ----------

  /** All nodes, every packet ever sent, and the messages their origins have started. */
  datatype Net = Net(nodes: map<string, Node>, sent: seq<Packet>, started: set<Message>)

  /**
   A step: an origin broadcasts a new message, or the network delivers any packet that was ever sent. Deliveries may
   come in any order, repeatedly or never: reordering, duplication and loss.
   */
  datatype Step = Start(m: Message) | Deliver(i: nat)

  predicate CanStart(net: Net, m: Message) {
    m.origin in net.nodes && m !in net.started && (m.dest == "" || m.dest in net.nodes) && m.seqNo >= 1
  }

  function Next(net: Net, step: Step): Net {
    match step
    case Start(m) =>
      if !CanStart(net, m) then net
      else
        net.(sent := net.sent + Broadcast(m.origin, net.nodes[m.origin].others, m, false),
             started := net.started + {m})
    case Deliver(i) =>
      if i >= |net.sent| || net.sent[i].to !in net.nodes then net
      else
        var p := net.sent[i];
        var n := net.nodes[p.to];
        net.(nodes := net.nodes[p.to := Receive(n, p.m)], sent := net.sent + Relay(n, p.from, p.m))
  }

  function Run(net: Net, steps: seq<Step>): Net {
    if steps == [] then net else Next(Run(net, steps[..|steps| - 1]), steps[|steps| - 1])
  }

  /** Mutually known peers: every node sends to exactly all the others, in any order. */
  ghost predicate Mutual(nodes: map<string, Node>) {
    forall k :: k in nodes ==>
      && nodes[k].key == k && Distinct(nodes[k].others) && "" !in nodes
      && forall x :: x in nodes[k].others <==> x in nodes && x != k
  }

  predicate Initial(net: Net) {
    net.sent == [] && net.started == {} && forall k :: k in net.nodes ==>
      net.nodes[k].seqs == map[] && net.nodes[k].processed == []
  }

  /** Processed numbers per kind and origin strictly increase, and the filter remembers the last one. */
  ghost predicate Filtered(n: Node) {
    && (forall i, j :: 0 <= i < j < |n.processed| && SeqKey(n.processed[i]) == SeqKey(n.processed[j]) ==>
          n.processed[i].seqNo < n.processed[j].seqNo)
    && (forall i :: 0 <= i < |n.processed| ==> n.processed[i].seqNo <= LastSeq(n.seqs, n.processed[i]))
  }

  ghost predicate ProcessedBy(net: Net, k: string, m: Message) {
    k in net.nodes && m in net.nodes[k].processed
  }

  /** A packet is sent by the origin of its message, or by a node that has processed it, to anybody but the origin. */
  ghost predicate PacketOk(net: Net, p: Packet) {
    && p.m in net.started && p.m.origin in net.nodes && p.to in net.nodes && p.to != p.m.origin
    && (p.m.dest == "" || p.m.dest in net.nodes)
    && (p.from == p.m.origin || ProcessedBy(net, p.from, p.m))
  }

  ghost predicate PacketsOk(net: Net) {
    forall i :: 0 <= i < |net.sent| ==> PacketOk(net, net.sent[i])
  }

  ghost predicate AllFiltered(nodes: map<string, Node>) {
    forall k :: k in nodes ==> Filtered(nodes[k])
  }

  /** No node processes a message of its own, or one nobody started. */
  ghost predicate ProcessedOk(net: Net) {
    forall k, m :: ProcessedBy(net, k, m) ==> k != m.origin && m in net.started
  }

  ghost predicate StartedOk(net: Net) {
    forall m :: m in net.started ==> m.origin in net.nodes
  }

  ghost predicate Orderly(net: Net) {
    Mutual(net.nodes) && StartedOk(net) && PacketsOk(net) && AllFiltered(net.nodes) && ProcessedOk(net)
  }

  function Sends(sent: seq<Packet>, m: Message): nat {
    if sent == [] then 0 else Sends(sent[..|sent| - 1], m) + if sent[|sent| - 1].m == m then 1 else 0
  }

  /** The nodes that processed a message. */
  ghost function Reached(net: Net, m: Message): set<string> {
    set k | k in net.nodes && m in net.nodes[k].processed
  }

  /** At most this many packets leave a node that passes m on. */
  function RelayLimit(n: nat, m: Message): nat {
    if m.kind == TYPE_STATUS || m.dest == m.origin then 0
    else if m.dest != "" then 1
    else if n >= 2 then n - 2
    else 0
  }

  ghost predicate Bounded(net: Net, m: Message) {
    Sends(net.sent, m) <=
      (if m in net.started then |net.nodes| - 1 else 0) + |Reached(net, m)| * RelayLimit(|net.nodes|, m)
  }

  // ---------- proofs ----------

  lemma {:induction false} SendsConcat(a: seq<Packet>, b: seq<Packet>, m: Message)
    ensures Sends(a + b, m) == Sends(a, m) + Sends(b, m)
  {
    if b == [] {
      assert a + b == a;
    } else {
      assert (a + b)[..|a + b| - 1] == a + b[..|b| - 1];
      SendsConcat(a, b[..|b| - 1], m);
    }
  }

  /** A broadcast goes to everyone on the list but the origin. */
  lemma {:induction false} SendAllShape(from: string, others: seq<string>, m: Message, x: Message)
    requires Distinct(others)
    ensures |SendAll(from, others, m)| == |others| - if m.origin in others then 1 else 0
    ensures Sends(SendAll(from, others, m), x) == if x == m then |SendAll(from, others, m)| else 0
    ensures forall i :: 0 <= i < |SendAll(from, others, m)| ==>
              var p := SendAll(from, others, m)[i]; p.from == from && p.m == m && p.to in others && p.to != m.origin
  {
    hide Sends;
    SendsOne(Packet(from, m.dest, m), x);
    if others != [] {
      var front, last := others[..|others| - 1], others[|others| - 1];
      assert others == front + [last];
      SendAllShape(from, front, m, x);
      var ps := SendAll(from, front, m);
      if m.origin != last {
        SendsOne(Packet(from, last, m), x);
        SendsConcat(ps, [Packet(from, last, m)], x);
        assert SendAll(from, others, m) == ps + [Packet(from, last, m)];
      } else {
        assert SendAll(from, others, m) == ps;
      }
    }
  }

  lemma {:induction false} DistinctSize(s: seq<string>, t: set<string>)
    requires Distinct(s) && forall x :: x in s <==> x in t
    ensures |s| == |t|
  {
    if s != [] {
      DistinctSize(s[..|s| - 1], t - {s[|s| - 1]});
    } else {
      assert t == {};
    }
  }

  /** What a node sends for m: at most n - 1 packets as its origin, at most RelayLimit when it passes it on. */
  lemma BroadcastShape(nodes: map<string, Node>, k: string, m: Message, isFinalHop: bool, x: Message)
    requires Mutual(nodes) && k in nodes && m.origin in nodes && (m.dest == "" || m.dest in nodes)
    requires (isFinalHop <==> k != m.origin) && (isFinalHop ==> m.kind != TYPE_STATUS)
    ensures var ps := Broadcast(k, nodes[k].others, m, isFinalHop);
      && Sends(ps, x) == (if x == m then |ps| else 0)
      && |ps| <= (if isFinalHop then RelayLimit(|nodes|, m) else |nodes| - 1)
      && forall i :: 0 <= i < |ps| ==> ps[i].from == k && ps[i].m == m && ps[i].to in nodes && ps[i].to != m.origin
  {
    hide SendAll, Sends, Mutual;
    var others := nodes[k].others;
    OthersOf(nodes, k);
    DistinctSize(others, nodes.Keys - {k});
    SendAllShape(k, others, m, x);
    if isFinalHop && m.dest != "" {
      SendsOne(Packet(k, m.dest, m), x);
    }
  }

  lemma OthersOf(nodes: map<string, Node>, k: string)
    requires Mutual(nodes) && k in nodes
    ensures Distinct(nodes[k].others) && "" !in nodes
    ensures forall x :: x in nodes[k].others <==> x in nodes.Keys - {k}
    ensures |nodes.Keys - {k}| == |nodes| - 1
  {
  }

  lemma SendsOne(p: Packet, x: Message)
    ensures Sends([], x) == 0 && Sends([p], x) == if p.m == x then 1 else 0
  {
    assert [p][..0] == [];
  }

  lemma SeqKeyInjective(a: Message, b: Message)
    requires SeqKey(a) == SeqKey(b)
    ensures a.kind == b.kind && a.origin == b.origin
  {
    IntTextHasNoComma(a.kind);
    IntTextHasNoComma(b.kind);
    FirstComma(IntText(a.kind), IntText(b.kind), a.origin, b.origin);
    IntTextInjective(a.kind, b.kind);
  }

  /** The filter never lets a message through twice. */
  lemma ReceiveFilters(n: Node, m: Message)
    requires Filtered(n)
    ensures Filtered(Receive(n, m))
    ensures IsNew(n, m) ==> m !in n.processed
  {
  }

  /** More packets, each in order, on a network where nothing was forgotten. */
  lemma PacketsGrow(net: Net, next: Net, extra: seq<Packet>)
    requires PacketsOk(net) && next.sent == net.sent + extra && net.started <= next.started
    requires net.nodes.Keys == next.nodes.Keys
    requires forall k, m :: ProcessedBy(net, k, m) ==> ProcessedBy(next, k, m)
    requires forall i :: 0 <= i < |extra| ==> PacketOk(next, extra[i])
    ensures PacketsOk(next)
  {
    forall i | 0 <= i < |next.sent| ensures PacketOk(next, next.sent[i]) {
      if i < |net.sent| {
        assert PacketOk(net, net.sent[i]);
      } else {
        assert next.sent[i] == extra[i - |net.sent|];
      }
    }
  }

  lemma StartOrderly(net: Net, m: Message)
    requires Orderly(net) && CanStart(net, m)
    ensures Orderly(Next(net, Start(m)))
  {
    hide Filtered, Broadcast, PacketsOk;
    var ps := Broadcast(m.origin, net.nodes[m.origin].others, m, false);
    BroadcastShape(net.nodes, m.origin, m, false, m);
    var next := Next(net, Start(m));
    forall k, x ensures ProcessedBy(net, k, x) <==> ProcessedBy(next, k, x) {
    }
    forall i | 0 <= i < |ps| ensures PacketOk(next, ps[i]) {
    }
    PacketsGrow(net, next, ps);
  }

  lemma DeliverOrderly(net: Net, i: nat)
    requires Orderly(net) && i < |net.sent|
    ensures Orderly(Next(net, Deliver(i)))
  {
    hide Broadcast, RelayLimit, PacketsOk, PacketOk, Filtered, Mutual, ProcessedBy, Receive;
    var p, next := net.sent[i], Next(net, Deliver(i));
    DeliverReached(net, i);
    DeliverFiltered(net, i);
    var extra := Relay(net.nodes[p.to], p.from, p.m);
    DeliverPackets(net, i);
    PacketsGrow(net, next, extra);
  }

  /** What a node passes on is a second hop. */
  lemma DeliverPackets(net: Net, i: nat)
    requires Orderly(net) && i < |net.sent|
    ensures var p, next := net.sent[i], Next(net, Deliver(i));
      && p.to in net.nodes && p.m in net.started && p.to != p.m.origin
      && forall j :: 0 <= j < |Relay(net.nodes[p.to], p.from, p.m)| ==>
           PacketOk(next, Relay(net.nodes[p.to], p.from, p.m)[j])
  {
    hide Broadcast, RelayLimit, Filtered;
    var p, next := net.sent[i], Next(net, Deliver(i));
    assert PacketOk(net, p);
    DeliverReached(net, i);
    var n := net.nodes[p.to];
    if IsNew(n, p.m) && p.m.kind != TYPE_STATUS && p.from == p.m.origin {
      BroadcastShape(net.nodes, p.to, p.m, true, p.m);
      assert ProcessedBy(next, p.to, p.m);
    }
  }

  lemma DeliverFiltered(net: Net, i: nat)
    requires Orderly(net) && i < |net.sent|
    ensures AllFiltered(Next(net, Deliver(i)).nodes)
  {
    ReceiveFilters(net.nodes[net.sent[i].to], net.sent[i].m);
  }

  /** A delivery makes at most one node process at most one message. */
  lemma DeliverReached(net: Net, i: nat)
    requires Orderly(net) && i < |net.sent|
    ensures var p, next := net.sent[i], Next(net, Deliver(i));
      && p.to in net.nodes && p.to != p.m.origin && p.m in net.started
      && next.nodes.Keys == net.nodes.Keys && Mutual(next.nodes) && next.started == net.started
      && next.sent == net.sent + Relay(net.nodes[p.to], p.from, p.m)
      && forall k, m :: ProcessedBy(next, k, m) <==>
           ProcessedBy(net, k, m) || (k == p.to && m == p.m && IsNew(net.nodes[k], m))
  {
    hide Filtered, Relay;
    assert PacketOk(net, net.sent[i]);
  }

  lemma {:induction false} EveryNetOrderly(net: Net, steps: seq<Step>)
    requires Mutual(net.nodes) && Initial(net)
    ensures Orderly(Run(net, steps)) && Run(net, steps).nodes.Keys == net.nodes.Keys
  {
    hide Orderly, Next;
    if steps == [] {
      InitialOrderly(net);
    } else {
      var front, last := steps[..|steps| - 1], steps[|steps| - 1];
      EveryNetOrderly(net, front);
      NextOrderly(Run(net, front), last);
    }
  }

  lemma InitialOrderly(net: Net)
    requires Mutual(net.nodes) && Initial(net)
    ensures Orderly(net)
  {
  }

  lemma NextOrderly(net: Net, step: Step)
    requires Orderly(net)
    ensures Orderly(Next(net, step)) && Next(net, step).nodes.Keys == net.nodes.Keys
  {
    match step
    case Start(m) =>
      if CanStart(net, m) {
        StartOrderly(net, m);
      }
    case Deliver(i) =>
      if i < |net.sent| {
        assert PacketOk(net, net.sent[i]);
        DeliverOrderly(net, i);
      }
  }

  lemma NextBounded(net: Net, step: Step, m: Message)
    requires Orderly(net) && Bounded(net, m)
    ensures Bounded(Next(net, step), m)
  {
    hide Broadcast, RelayLimit;
    match step
    case Start(x) =>
      if CanStart(net, x) {
        BroadcastShape(net.nodes, x.origin, x, false, m);
        SendsConcat(net.sent, Broadcast(x.origin, net.nodes[x.origin].others, x, false), m);
        assert Reached(Next(net, step), m) == Reached(net, m);
      }
    case Deliver(i) =>
      if i < |net.sent| && net.sent[i].to in net.nodes {
        DeliverBounded(net, i, m);
      }
  }

  lemma DeliverBounded(net: Net, i: nat, m: Message)
    requires Orderly(net) && Bounded(net, m) && i < |net.sent|
    ensures Bounded(Next(net, Deliver(i)), m)
  {
    hide Broadcast, RelayLimit, Filtered, Mutual, PacketsOk, Receive, Relay, Sends;
    var p, next := net.sent[i], Next(net, Deliver(i));
    DeliverReached(net, i);
    DeliverSends(net, i, m);
    var n := net.nodes[p.to];
    var limit := RelayLimit(|net.nodes|, m);
    assert |next.nodes| == |next.nodes.Keys| == |net.nodes|;
    if IsNew(n, p.m) && p.m == m {
      ReceiveFilters(n, m) by {
        assert AllFiltered(net.nodes);
      }
      assert !ProcessedBy(net, p.to, m);
      MoreReached(net, next, m, p.to);
      assert (|Reached(net, m)| + 1) * limit == |Reached(net, m)| * limit + limit;
    } else {
      MoreReached(net, next, m, p.to);
    }
  }

  /** A delivery adds packets of the delivered message only, within the limit, and none if it was not new. */
  lemma DeliverSends(net: Net, i: nat, m: Message)
    requires Orderly(net) && i < |net.sent|
    ensures var p := net.sent[i];
      p.to in net.nodes && Sends(Next(net, Deliver(i)).sent, m) <=
      Sends(net.sent, m) + if p.m == m && IsNew(net.nodes[p.to], m) then RelayLimit(|net.nodes|, m) else 0
  {
    hide Broadcast, RelayLimit, Filtered;
    var p := net.sent[i];
    assert PacketOk(net, p);
    var n := net.nodes[p.to];
    SendsConcat(net.sent, Relay(n, p.from, p.m), m);
    if IsNew(n, p.m) && p.m.kind != TYPE_STATUS && p.from == p.m.origin {
      BroadcastShape(net.nodes, p.to, p.m, true, m);
    }
  }

  /** The set of nodes reached, from who processed the message. */
  lemma MoreReached(net: Net, next: Net, m: Message, to: string)
    requires forall k :: ProcessedBy(net, k, m) ==> ProcessedBy(next, k, m)
    requires forall k :: ProcessedBy(next, k, m) ==> ProcessedBy(net, k, m) || k == to
    ensures Reached(next, m) == if ProcessedBy(next, to, m) then Reached(net, m) + {to} else Reached(net, m)
    ensures ProcessedBy(net, to, m) <==> to in Reached(net, m)
    ensures ProcessedBy(net, to, m) ==> Reached(next, m) == Reached(net, m)
  {
    forall k
      ensures k in Reached(next, m) <==> ProcessedBy(next, k, m)
      ensures k in Reached(net, m) <==> ProcessedBy(net, k, m)
    {
    }
  }

  // ---------- everybody is reached ----------

  /** Everybody on the list but the origin gets one packet for each time it is on the list. */
  lemma {:induction false} SendAllCounts(from: string, others: seq<string>, m: Message)
    ensures forall p :: p in SendAll(from, others, m) ==> p == Packet(from, p.to, m)
    ensures forall x :: multiset(SendAll(from, others, m))[Packet(from, x, m)] ==
                        if x == m.origin then 0 else multiset(others)[x]
  {
    if others != [] {
      var front, last := others[..|others| - 1], others[|others| - 1];
      SendAllCounts(from, front, m);
      assert others == front + [last];
    }
  }

  lemma SendAllHas(from: string, others: seq<string>, m: Message, x: string)
    requires x in others && x != m.origin
    ensures Packet(from, x, m) in SendAll(from, others, m)
  {
    SendAllCounts(from, others, m);
    assert multiset(others)[x] > 0;
    assert multiset(SendAll(from, others, m))[Packet(from, x, m)] > 0;
  }

  /** A step of the run has delivered this packet. */
  ghost predicate Delivered(net: Net, steps: seq<Step>, p: Packet) {
    exists t: nat :: t < |steps| && Delivers(Run(net, steps[..t]), steps[t], p)
  }

  predicate Delivers(net: Net, step: Step, p: Packet) {
    step.Deliver? && step.i < |net.sent| && net.sent[step.i] == p
  }

  /** The node has processed the message, or a later one of its kind and origin. */
  ghost predicate HasGot(n: Node, m: Message) {
    exists p :: p in n.processed && p.kind == m.kind && p.origin == m.origin && p.seqNo >= m.seqNo
  }

  /** The filter remembers only what was processed. */
  ghost predicate Shown(n: Node) {
    forall key :: key in n.seqs ==> exists p :: p in n.processed && SeqKey(p) == key && p.seqNo == n.seqs[key]
  }

  ghost predicate AllShown(nodes: map<string, Node>) {
    forall k :: k in nodes ==> Shown(nodes[k])
  }

  lemma ReceiveShows(n: Node, m: Message)
    requires Shown(n)
    ensures Shown(Receive(n, m))
  {
    hide SeqKey;
    var r := Receive(n, m);
    forall key | key in r.seqs
      ensures exists p :: p in r.processed && SeqKey(p) == key && p.seqNo == r.seqs[key]
    {
      if IsNew(n, m) && key == SeqKey(m) {
        assert m in r.processed;
      } else {
        var p :| p in n.processed && SeqKey(p) == key && p.seqNo == n.seqs[key];
        assert p in r.processed;
      }
    }
  }

  lemma {:induction false} EveryNetShows(net: Net, steps: seq<Step>)
    requires Mutual(net.nodes) && Initial(net)
    ensures AllShown(Run(net, steps).nodes)
  {
    hide Mutual, Shown, Relay, Broadcast, Receive;
    if steps == [] {
      forall k | k in net.nodes ensures Shown(net.nodes[k]) {
        NothingShown(net.nodes[k]);
      }
    } else {
      var before, last := Run(net, steps[..|steps| - 1]), steps[|steps| - 1];
      EveryNetShows(net, steps[..|steps| - 1]);
      if last.Deliver? && last.i < |before.sent| && before.sent[last.i].to in before.nodes {
        ReceiveShows(before.nodes[before.sent[last.i].to], before.sent[last.i].m);
      }
    }
  }

  lemma NothingShown(n: Node)
    requires n.seqs == map[]
    ensures Shown(n)
  {
  }

  /** What a node remembers never gets less. */
  lemma NextKeeps(net: Net, step: Step, k: string, m: Message)
    requires k in net.nodes
    ensures k in Next(net, step).nodes && LastSeq(Next(net, step).nodes[k].seqs, m) >= LastSeq(net.nodes[k].seqs, m)
  {
    hide Broadcast, SeqKey;
  }

  lemma DeliveryGets(net: Net, step: Step, p: Packet)
    requires Delivers(net, step, p) && p.to in net.nodes
    ensures p.to in Next(net, step).nodes && LastSeq(Next(net, step).nodes[p.to].seqs, p.m) >= p.m.seqNo
  {
    hide Broadcast, SeqKey;
  }

  lemma {:induction false} DeliveredIsRemembered(net: Net, steps: seq<Step>, p: Packet)
    requires Mutual(net.nodes) && Initial(net) && Delivered(net, steps, p)
    ensures var r := Run(net, steps); p.to in r.nodes && LastSeq(r.nodes[p.to].seqs, p.m) >= p.m.seqNo
  {
    hide Mutual, Initial, Next, LastSeq, Delivers;
    var n := |steps| - 1;
    var front := steps[..n];
    var t: nat :| t < |steps| && Delivers(Run(net, steps[..t]), steps[t], p);
    EveryNetOrderly(net, front);
    if t < n {
      assert front[..t] == steps[..t];
      DeliveredIsRemembered(net, front, p);
      NextKeeps(Run(net, front), steps[n], p.to, p.m);
    } else {
      DeliveredWasSent(Run(net, front), steps[n], p);
      DeliveryGets(Run(net, front), steps[n], p);
    }
  }

  lemma DeliveredWasSent(net: Net, step: Step, p: Packet)
    requires Orderly(net) && Delivers(net, step, p)
    ensures p.to in net.nodes && p in net.sent
  {
    assert PacketOk(net, net.sent[step.i]);
  }

  lemma RememberedIsGot(n: Node, m: Message)
    requires Shown(n) && m.seqNo >= 1 && LastSeq(n.seqs, m) >= m.seqNo
    ensures HasGot(n, m)
  {
    hide SeqKey;
    var p :| p in n.processed && SeqKey(p) == SeqKey(m) && p.seqNo == n.seqs[SeqKey(m)];
    SeqKeyInjective(p, m);
  }

  /** Whoever a packet of a started message was delivered to has got the message. */
  lemma DeliveredIsGot(net: Net, steps: seq<Step>, p: Packet)
    requires Mutual(net.nodes) && Initial(net) && p.m.seqNo >= 1 && Delivered(net, steps, p)
    ensures var r := Run(net, steps); p.to in r.nodes && HasGot(r.nodes[p.to], p.m)
  {
    hide Mutual, Initial, Run, Delivered, HasGot, Shown, LastSeq;
    DeliveredIsRemembered(net, steps, p);
    EveryNetShows(net, steps);
    RememberedIsGot(Run(net, steps).nodes[p.to], p.m);
  }

  /** The origin of a started message has sent it to every other node. */
  lemma {:induction false} EverybodyIsSent(net: Net, steps: seq<Step>, m: Message, x: string)
    requires Mutual(net.nodes) && Initial(net) && m in Run(net, steps).started && x in net.nodes && x != m.origin
    ensures Packet(m.origin, x, m) in Run(net, steps).sent
  {
    hide Mutual, Initial, Next;
    if steps == [] {
      NothingStarted(net);
    } else {
      var front, last := steps[..|steps| - 1], steps[|steps| - 1];
      var before := Run(net, front);
      EveryNetOrderly(net, front);
      SentStays(before, last);
      if m in before.started {
        EverybodyIsSent(net, front, m, x);
        InPrefix(before.sent, Next(before, last).sent, Packet(m.origin, x, m));
      } else {
        StartSends(before, last, m, x);
      }
    }
  }

  lemma InPrefix(a: seq<Packet>, b: seq<Packet>, p: Packet)
    requires a <= b && p in a
    ensures p in b
  {
    var i :| 0 <= i < |a| && a[i] == p;
    assert b[i] == p;
  }

  lemma StartSends(net: Net, step: Step, m: Message, x: string)
    requires Mutual(net.nodes) && m !in net.started && m in Next(net, step).started && x in net.nodes && x != m.origin
    ensures Packet(m.origin, x, m) in Next(net, step).sent
  {
    hide SendAll;
    SendAllHas(m.origin, net.nodes[m.origin].others, m, x);
  }

  /**
   Once the packets of its origin are delivered, in any order and with whatever else, every other node has processed a
   started message or a later one of its kind and origin.
   */
  lemma EverybodyGets(net: Net, steps: seq<Step>, m: Message)
    requires Mutual(net.nodes) && Initial(net) && m in Run(net, steps).started
    requires forall p :: p in Run(net, steps).sent && p.m == m && p.from == m.origin ==> Delivered(net, steps, p)
    ensures forall x :: x in net.nodes && x != m.origin ==>
              x in Run(net, steps).nodes && HasGot(Run(net, steps).nodes[x], m)
  {
    hide Mutual, Initial, Run, Delivered, HasGot;
    StartedCould(net, steps, m);
    forall x | x in net.nodes && x != m.origin
      ensures x in Run(net, steps).nodes && HasGot(Run(net, steps).nodes[x], m)
    {
      EverybodyIsSent(net, steps, m, x);
      DeliveredIsGot(net, steps, Packet(m.origin, x, m));
    }
  }

  /** Where an addressed message goes on its last hop, and where any other. */
  predicate IsMeant(m: Message, k: string, x: string) {
    x != m.origin && if m.dest != "" then x == m.dest else x != k
  }

  lemma RelaySends(net: Net, step: Step, m: Message, k: string, x: string)
    requires Orderly(net) && Delivers(net, step, Packet(m.origin, k, m)) && k in net.nodes && IsNew(net.nodes[k], m)
    requires m.kind != TYPE_STATUS && x in net.nodes && IsMeant(m, k, x)
    ensures Packet(k, x, m) in Next(net, step).sent
  {
    hide SendAll, IsNew;
    if m.dest == "" {
      SendAllHas(k, net.nodes[k].others, m, x);
    }
  }

  /** In step t a node gets the message as new and straight from its origin. */
  predicate GetsFirst(net: Net, steps: seq<Step>, t: nat, m: Message, k: string) {
    && t < |steps| && Delivers(Run(net, steps[..t]), steps[t], Packet(m.origin, k, m))
    && k in Run(net, steps[..t]).nodes && IsNew(Run(net, steps[..t]).nodes[k], m)
  }

  lemma {:induction false} RelayedIsSent(net: Net, steps: seq<Step>, t: nat, m: Message, k: string, x: string)
    requires Mutual(net.nodes) && Initial(net) && GetsFirst(net, steps, t, m, k)
    requires m.kind != TYPE_STATUS && x in net.nodes && IsMeant(m, k, x)
    ensures Packet(k, x, m) in Run(net, steps).sent
  {
    hide Mutual, Initial, Next, IsNew, Delivers, IsMeant;
    var n := |steps| - 1;
    var front := steps[..n];
    EveryNetOrderly(net, front);
    if t == n {
      RelaySends(Run(net, front), steps[n], m, k, x);
    } else {
      assert front[..t] == steps[..t];
      RelayedIsSent(net, front, t, m, k, x);
      SentStays(Run(net, front), steps[n]);
      InPrefix(Run(net, front).sent, Run(net, steps).sent, Packet(k, x, m));
    }
  }

  /**
   Gossip makes up for lost packets: a node that got a message first hand has sent it on to everybody it is meant for,
   and whoever its packet is delivered to has got the message, whether or not the origin's own packet arrives.
   */
  lemma GossipCoversLoss(net: Net, steps: seq<Step>, t: nat, m: Message, k: string, x: string)
    requires Mutual(net.nodes) && Initial(net) && GetsFirst(net, steps, t, m, k)
    requires m.kind != TYPE_STATUS && m.seqNo >= 1 && x in net.nodes && IsMeant(m, k, x)
    ensures Packet(k, x, m) in Run(net, steps).sent
    ensures Delivered(net, steps, Packet(k, x, m)) ==>
              x in Run(net, steps).nodes && HasGot(Run(net, steps).nodes[x], m)
  {
    hide Mutual, Initial, Run, Delivered, HasGot, GetsFirst, IsMeant;
    RelayedIsSent(net, steps, t, m, k, x);
    if Delivered(net, steps, Packet(k, x, m)) {
      DeliveredIsGot(net, steps, Packet(k, x, m));
    }
  }

  // ---------- the theorems ----------

  lemma {:induction false} EveryNetBounded(net: Net, steps: seq<Step>, m: Message)
    requires Mutual(net.nodes) && Initial(net)
    ensures Bounded(Run(net, steps), m)
  {
    hide Orderly, Next, Bounded;
    if steps == [] {
      InitialBounded(net, m);
    } else {
      var front, last := steps[..|steps| - 1], steps[|steps| - 1];
      EveryNetBounded(net, front, m);
      EveryNetOrderly(net, front);
      NextBounded(Run(net, front), last, m);
    }
  }

  lemma InitialBounded(net: Net, m: Message)
    requires Initial(net)
    ensures Bounded(net, m)
  {
    assert Reached(net, m) == {};
  }

  /** Every node processes a message at most once, in order of its numbers, and never one of its own. */
  lemma ProcessedOnce(net: Net, steps: seq<Step>, k: string)
    requires Mutual(net.nodes) && Initial(net) && k in net.nodes
    ensures var r := Run(net, steps); k in r.nodes && Filtered(r.nodes[k]) && Distinct(r.nodes[k].processed)
  {
    EveryNetOrderly(net, steps);
    assert AllFiltered(Run(net, steps).nodes);
  }

  /** How far each packet's message has come: one hop from its origin, or one more than the packet that caused it. */
  function Hops(net: Net, steps: seq<Step>): (h: seq<nat>)
    requires net.sent == []
    ensures |h| == |Run(net, steps).sent|
  {
    if steps == [] then []
    else
      var front, last := steps[..|steps| - 1], steps[|steps| - 1];
      var h := Hops(net, front);
      seq(|Run(net, steps).sent|, j => Hop(h, last, j))
  }

  function Hop(h: seq<nat>, step: Step, j: int): nat {
    if 0 <= j < |h| then h[j]
    else
      match step
      case Start(_) => 1
      case Deliver(i) => if i < |h| then h[i] + 1 else 0
  }

  /** What a step adds to the packets: the origin's own, or what a node passes on that had it from the origin. */
  lemma StepSends(net: Net, step: Step, i: nat)
    requires Orderly(net) && |net.sent| <= i < |Next(net, step).sent|
    ensures var p := Next(net, step).sent[i];
      match step
      case Start(m) => p.from == p.m.origin
      case Deliver(j) => j < |net.sent| && net.sent[j].from == net.sent[j].m.origin && p.from != p.m.origin
  {
    hide Broadcast, RelayLimit, Filtered, Receive;
    match step
    case Start(m) =>
      BroadcastShape(net.nodes, m.origin, m, false, m);
    case Deliver(j) =>
      var q := net.sent[j];
      assert PacketOk(net, q);
      if q.from == q.m.origin && q.m.kind != TYPE_STATUS {
        BroadcastShape(net.nodes, q.to, q.m, true, q.m);
      }
  }

  lemma SentStays(net: Net, step: Step)
    ensures net.sent <= Next(net, step).sent
  {
  }

  /**
   Two hops at most: a packet sent by the origin of its message is on the first hop, any other on the second, and who
   sent it had processed the message.
   */
  lemma {:induction false} TwoHops(net: Net, steps: seq<Step>, i: nat)
    requires Mutual(net.nodes) && Initial(net) && i < |Run(net, steps).sent|
    ensures PacketOk(Run(net, steps), Run(net, steps).sent[i])
    ensures var p := Run(net, steps).sent[i];
      Hops(net, steps)[i] == if p.from == p.m.origin then 1 else 2
  {
    hide Mutual, Next, PacketOk, AllFiltered, ProcessedOk, StartedOk;
    EveryNetOrderly(net, steps);
    if steps != [] {
      var front, last := steps[..|steps| - 1], steps[|steps| - 1];
      var before := Run(net, front);
      EveryNetOrderly(net, front);
      SentStays(before, last);
      assert Hops(net, steps)[i] == Hop(Hops(net, front), last, i);
      if i < |before.sent| {
        TwoHops(net, front, i);
      } else {
        StepSends(before, last, i);
        if last.Deliver? {
          TwoHops(net, front, last.i);
        }
      }
    }
  }

  lemma UnstartedUnreached(net: Net, m: Message)
    requires ProcessedOk(net) && m !in net.started
    ensures Reached(net, m) == {}
  {
    assert forall k | k in Reached(net, m) :: ProcessedBy(net, k, m);
  }

  /**
   One broadcast among n mutually known peers causes at most (n - 1) ^ 2 packets if it is for everybody, and at most
   2 (n - 1) if it is addressed, whatever the network loses, repeats or reorders.
   */
  lemma GossipBounded(net: Net, steps: seq<Step>, m: Message)
    requires Mutual(net.nodes) && Initial(net) && |net.nodes| >= 1
    ensures var n := |net.nodes|;
      Sends(Run(net, steps).sent, m) <= if m.dest == "" then (n - 1) * (n - 1) else 2 * (n - 1)
  {
    hide Mutual, PacketsOk, PacketOk, AllFiltered, Sends, Run;
    var r, n := Run(net, steps), |net.nodes|;
    EveryNetBounded(net, steps, m);
    EveryNetOrderly(net, steps);
    assert |r.nodes| == |r.nodes.Keys| == n;
    if m in r.started {
      ReachedOthers(r, m);
      LimitedTotal(n, |Reached(r, m)|, m, Sends(r.sent, m));
    } else {
      UnstartedUnreached(r, m);
      LimitedTotal(n, 0, m, Sends(r.sent, m));
    }
  }

  lemma LimitedTotal(n: nat, x: nat, m: Message, sends: nat)
    requires 1 <= n && x <= n - 1 && sends <= n - 1 + x * RelayLimit(n, m)
    ensures sends <= if m.dest == "" then (n - 1) * (n - 1) else 2 * (n - 1)
  {
    var limit := RelayLimit(n, m);
    assert limit <= if m.dest != "" then 1 else if n >= 2 then n - 2 else 0;
    Monotone(x, n - 1, limit);
    if m.dest != "" {
      Monotone(limit, 1, n - 1);
    } else if n >= 2 {
      Monotone(limit, n - 2, n - 1);
      assert (n - 1) * (n - 1) == (n - 1) + (n - 2) * (n - 1);
    }
  }

  lemma Monotone(a: nat, b: nat, c: nat)
    requires a <= b
    ensures a * c <= b * c && a * c == c * a
  {
    assert b * c == a * c + (b - a) * c;
  }

  lemma ReachedOthers(net: Net, m: Message)
    requires ProcessedOk(net)
    ensures m.origin in net.nodes ==> |Reached(net, m)| <= |net.nodes| - 1
    ensures |Reached(net, m)| <= |net.nodes|
  {
    var reached := Reached(net, m);
    forall k | k in reached ensures k in net.nodes.Keys - {m.origin} {
      assert ProcessedBy(net, k, m);
    }
    SubsetSize(reached, net.nodes.Keys - {m.origin});
    if m.origin in net.nodes {
      assert |net.nodes.Keys - {m.origin}| == |net.nodes| - 1;
    }
  }

  lemma {:induction false} SubsetSize<T>(a: set<T>, b: set<T>)
    requires a <= b
    ensures |a| <= |b|
    decreases a
  {
    if a != {} {
      var x :| x in a;
      SubsetSize(a - {x}, b - {x});
    }
  }

  /** An addressed message that the receiver passes on. */
  predicate IsPassedOn(m: Message) {
    m.kind != TYPE_STATUS && m.dest != "" && m.dest != m.origin
  }

  lemma {:induction false} StartedCould(net: Net, steps: seq<Step>, m: Message)
    requires Mutual(net.nodes) && Initial(net) && m in Run(net, steps).started
    ensures CanStart(net, m)
  {
    hide Mutual, Initial, Orderly;
    if steps == [] {
      NothingStarted(net);
    } else {
      var front, last := steps[..|steps| - 1], steps[|steps| - 1];
      EveryNetOrderly(net, front);
      if m in Run(net, front).started {
        StartedCould(net, front, m);
      } else {
        NothingStarted(net);
      }
    }
  }

  lemma NothingStarted(net: Net)
    requires Initial(net)
    ensures net.started == {}
  {
  }

  lemma OnlyOther(nodes: map<string, Node>, a: string, b: string)
    requires Mutual(nodes) && |nodes| == 2 && a in nodes && b in nodes && a != b
    ensures nodes[a].others == [b]
  {
    var others := nodes[a].others;
    assert |nodes.Keys - {a} - {b}| == 0;
    assert nodes.Keys == {a, b};
    DistinctSize(others, {b});
    assert others[0] in others;
  }

  /**
   Between two peers an addressed message exceeds the square: the receiver passes it on to itself. No other message
   does.
   */
  lemma TwoPeersExceedTheSquare(net: Net, m: Message)
    requires Mutual(net.nodes) && Initial(net) && |net.nodes| == 2
    ensures (exists steps :: Sends(Run(net, steps).sent, m) > 1) <==> CanStart(net, m) && IsPassedOn(m)
  {
    hide Mutual, Initial, Next, Sends, Run;
    if steps :| Sends(Run(net, steps).sent, m) > 1 {
      var r := Run(net, steps);
      EveryNetBounded(net, steps, m);
      EveryNetOrderly(net, steps);
      assert |r.nodes| == |r.nodes.Keys| == 2;
      if m in r.started {
        StartedCould(net, steps, m);
      } else {
        UnstartedUnreached(r, m);
      }
    }
    if CanStart(net, m) && IsPassedOn(m) {
      SentTwice(net, m);
    }
  }

  lemma SentTwice(net: Net, m: Message)
    requires Mutual(net.nodes) && Initial(net) && |net.nodes| == 2 && CanStart(net, m) && IsPassedOn(m)
    ensures Sends(Run(net, [Start(m), Deliver(0)]).sent, m) == 2
  {
    hide Next, IsNew, Sends;
    OnlyOther(net.nodes, m.origin, m.dest);
    SendToOther(net, m);
    var one := Next(net, Start(m));
    PassToOneself(one, m);
    var two := Next(one, Deliver(0));
    var first, second := [Start(m)], [Start(m), Deliver(0)];
    assert second[..|second| - 1] == first && second[|second| - 1] == Deliver(0);
    assert first[..|first| - 1] == [] && first[|first| - 1] == Start(m) && Run(net, []) == net;
    assert Run(net, first) == one;
    assert Run(net, second) == two;
    SendsOf(one.sent[0], two.sent[1], m);
  }

  lemma SendToOther(net: Net, m: Message)
    requires net.sent == [] && CanStart(net, m) && net.nodes[m.origin].others == [m.dest] && m.dest != m.origin
    ensures Next(net, Start(m)).sent == [Packet(m.origin, m.dest, m)] && Next(net, Start(m)).nodes == net.nodes
  {
    assert [m.dest][..0] == [];
    assert SendAll(m.origin, [m.dest], m) == SendAll(m.origin, [], m) + [Packet(m.origin, m.dest, m)];
  }

  lemma PassToOneself(net: Net, m: Message)
    requires net.sent == [Packet(m.origin, m.dest, m)] && m.dest != "" && m.dest != m.origin && m.kind != TYPE_STATUS
    requires m.dest in net.nodes && net.nodes[m.dest].key == m.dest && net.nodes[m.dest].seqs == map[] && m.seqNo >= 1
    ensures Next(net, Deliver(0)).sent == [Packet(m.origin, m.dest, m), Packet(m.dest, m.dest, m)]
  {
  }

  lemma SendsOf(p: Packet, q: Packet, m: Message)
    requires p.m == m && q.m == m
    ensures Sends([p, q], m) == 2
  {
    assert [p, q][..1] == [p] && [p][..0] == [];
    assert Sends([p], m) == 1;
  }

  /** One broadcast stays within (n - 1) ^ 2 sends in every run, but for that one case. */
  lemma SquareBound(net: Net, m: Message)
    requires Mutual(net.nodes) && Initial(net) && |net.nodes| >= 1
    ensures var n := |net.nodes|;
      (forall steps :: Sends(Run(net, steps).sent, m) <= (n - 1) * (n - 1))
      <==> !(n == 2 && CanStart(net, m) && IsPassedOn(m))
  {
    hide Mutual, Initial, Sends, Run;
    var n := |net.nodes|;
    if n == 2 {
      TwoPeersExceedTheSquare(net, m);
    } else {
      forall steps ensures Sends(Run(net, steps).sent, m) <= (n - 1) * (n - 1) {
        GossipBounded(net, steps, m);
        Square(n);
      }
    }
  }

  lemma Square(n: nat)
    requires n == 1 || n >= 3
    ensures 2 * (n - 1) <= (n - 1) * (n - 1)
  {
    if n >= 3 {
      assert (n - 1) * (n - 1) == 2 * (n - 1) + (n - 1) * (n - 3);
      assert (n - 1) * (n - 3) >= 0;
    }
  }
}
