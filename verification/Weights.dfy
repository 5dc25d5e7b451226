/** Stake as weight: sums over the peer map, and when two voter lists must share a staked peer. */
module Weights {
  import opened Types

  /** getStake: a key that is no peer weighs nothing. */
  function Stake(peers: map<string, Peer>, pk: string): int {
    if pk in peers then peers[pk].stake else 0
  }

  /** The sum hasQuorumWeighted forms: one summand per list entry, repeated origins count again. */
  function ListWeight(peers: map<string, Peer>, origins: seq<string>): int {
    if origins == [] then 0
    else ListWeight(peers, origins[..|origins| - 1]) + Stake(peers, origins[|origins| - 1])
  }

  ghost function SetWeight(peers: map<string, Peer>, s: set<string>): int {
    if s == {} then 0
    else
      var x :| x in s;
      Stake(peers, x) + SetWeight(peers, s - {x})
  }

  /** The stake of all current peers. */
  ghost function Total(peers: map<string, Peer>): int {
    SetWeight(peers, peers.Keys)
  }

  ghost predicate NonNegative(peers: map<string, Peer>) {
    forall pk :: pk in peers ==> peers[pk].stake >= 0
  }

  ghost function Elements<T>(s: seq<T>): set<T> {
    set x | x in s
  }

  lemma {:induction false} TakeOut(peers: map<string, Peer>, s: set<string>, x: string)
    requires x in s
    ensures SetWeight(peers, s) == Stake(peers, x) + SetWeight(peers, s - {x})
    decreases s
  {
    var y :| y in s && SetWeight(peers, s) == Stake(peers, y) + SetWeight(peers, s - {y});
    if y != x {
      TakeOut(peers, s - {y}, x);
      TakeOut(peers, s - {x}, y);
      assert s - {y} - {x} == s - {x} - {y};
    }
  }

  lemma {:induction false} SetWeightAgrees(p: map<string, Peer>, q: map<string, Peer>, s: set<string>)
    requires forall x :: x in s ==> Stake(p, x) == Stake(q, x)
    ensures SetWeight(p, s) == SetWeight(q, s)
    decreases s
  {
    if s != {} {
      var x :| x in s;
      TakeOut(p, s, x);
      TakeOut(q, s, x);
      SetWeightAgrees(p, q, s - {x});
    }
  }

  lemma {:induction false} SetWeightSplits(peers: map<string, Peer>, a: set<string>, b: set<string>)
    requires a !! b
    ensures SetWeight(peers, a + b) == SetWeight(peers, a) + SetWeight(peers, b)
    decreases a
  {
    if a == {} {
      assert a + b == b;
    } else {
      var x :| x in a;
      TakeOut(peers, a + b, x);
      TakeOut(peers, a, x);
      assert a + b - {x} == (a - {x}) + b;
      SetWeightSplits(peers, a - {x}, b);
    }
  }

  lemma {:induction false} SetWeightBounds(peers: map<string, Peer>, s: set<string>)
    requires NonNegative(peers)
    ensures 0 <= SetWeight(peers, s) <= Total(peers)
    decreases s
  {
    SetWeightNonNegative(peers, s);
    SetWeightNonNegative(peers, peers.Keys - s);
    SetWeightSplits(peers, s * peers.Keys, peers.Keys - s);
    SetWeightSplits(peers, s * peers.Keys, s - peers.Keys);
    assert s * peers.Keys + (peers.Keys - s) == peers.Keys && s * peers.Keys + (s - peers.Keys) == s;
    SetWeightAgrees(peers, map[], s - peers.Keys);
    NoPeersNoWeight(s - peers.Keys);
  }

  lemma {:induction false} NoPeersNoWeight(s: set<string>)
    ensures SetWeight(map[], s) == 0
    decreases s
  {
    if s != {} {
      var x :| x in s;
      TakeOut(map[], s, x);
      NoPeersNoWeight(s - {x});
    }
  }

  lemma {:induction false} SetWeightNonNegative(peers: map<string, Peer>, s: set<string>)
    requires NonNegative(peers)
    ensures SetWeight(peers, s) >= 0
    decreases s
  {
    if s != {} {
      var x :| x in s;
      TakeOut(peers, s, x);
      SetWeightNonNegative(peers, s - {x});
    }
  }

  /** A positive sum has a positive summand. */
  lemma {:induction false} PositiveMember(peers: map<string, Peer>, s: set<string>)
    requires SetWeight(peers, s) > 0
    ensures exists x :: x in s && Stake(peers, x) > 0
    decreases s
  {
    var x :| x in s;
    TakeOut(peers, s, x);
    if Stake(peers, x) <= 0 {
      PositiveMember(peers, s - {x});
    }
  }

  lemma {:induction false} DistinctListWeight(peers: map<string, Peer>, origins: seq<string>)
    requires Distinct(origins)
    ensures ListWeight(peers, origins) == SetWeight(peers, Elements(origins))
  {
    if origins == [] {
      assert Elements(origins) == {};
    } else {
      var front, x := origins[..|origins| - 1], origins[|origins| - 1];
      DistinctListWeight(peers, front);
      assert origins == front + [x];
      assert Elements(origins) - {x} == Elements(front);
      TakeOut(peers, Elements(origins), x);
    }
  }

  /** What a peer map gains when one entry is set or changed. */
  lemma TotalAfterSet(peers: map<string, Peer>, pk: string, p: Peer)
    ensures Total(peers[pk := p]) == Total(peers) - Stake(peers, pk) + p.stake
  {
    var q := peers[pk := p];
    TakeOut(q, q.Keys, pk);
    SetWeightAgrees(q, peers, peers.Keys - {pk});
    assert q.Keys - {pk} == peers.Keys - {pk};
    if pk in peers {
      TakeOut(peers, peers.Keys, pk);
    } else {
      assert peers.Keys - {pk} == peers.Keys;
    }
  }

  lemma TotalAfterRemove(peers: map<string, Peer>, pk: string)
    requires pk in peers
    ensures Total(peers - {pk}) == Total(peers) - peers[pk].stake
  {
    TakeOut(peers, peers.Keys, pk);
    SetWeightAgrees(peers - {pk}, peers, peers.Keys - {pk});
    assert (peers - {pk}).Keys == peers.Keys - {pk};
  }

  /** hasQuorumWeighted: strictly more than half of the recorded weight. */
  predicate QuorumOf(peers: map<string, Peer>, weight: int, origins: seq<string>) {
    2 * ListWeight(peers, origins) > weight
  }

  /** Quorum intersection: two lists of distinct voters that both reach quorum share a peer that has stake. */
  lemma QuorumsIntersect(peers: map<string, Peer>, weight: int, a: seq<string>, b: seq<string>)
    requires NonNegative(peers) && Total(peers) <= weight
    requires Distinct(a) && Distinct(b) && QuorumOf(peers, weight, a) && QuorumOf(peers, weight, b)
    ensures exists pk :: pk in a && pk in b && pk in peers && peers[pk].stake > 0
  {
    var x, y := Elements(a), Elements(b);
    DistinctListWeight(peers, a);
    DistinctListWeight(peers, b);
    SetWeightSplits(peers, x - y, x * y);
    SetWeightSplits(peers, x - y, y);
    assert (x - y) + x * y == x && (x - y) + y == x + y;
    SetWeightBounds(peers, x + y);
    PositiveMember(peers, x * y);
    var pk :| pk in x * y && Stake(peers, pk) > 0;
    assert pk in a && pk in b;
  }

  /** Without one heavy peer there is no quorum: the others hold too little. */
  lemma NoQuorumWithout(peers: map<string, Peer>, weight: int, a: seq<string>, pk: string)
    requires NonNegative(peers) && Total(peers) <= weight
    requires Distinct(a) && pk !in a && 2 * Stake(peers, pk) >= weight
    ensures !QuorumOf(peers, weight, a)
  {
    DistinctListWeight(peers, a);
    SetWeightBounds(peers, Elements(a) + {pk});
    TakeOut(peers, Elements(a) + {pk}, pk);
    assert Elements(a) + {pk} - {pk} == Elements(a);
  }

  /** All peers together are the heaviest list, so some list of distinct voters reaches quorum iff they do. */
  lemma QuorumReachable(peers: map<string, Peer>, weight: int)
    requires NonNegative(peers)
    ensures (exists a :: Distinct(a) && QuorumOf(peers, weight, a)) <==> 2 * Total(peers) > weight
  {
    forall a | Distinct(a) && QuorumOf(peers, weight, a) ensures 2 * Total(peers) > weight {
      DistinctListWeight(peers, a);
      SetWeightBounds(peers, Elements(a));
    }
    var all := Listed(peers.Keys);
    DistinctListWeight(peers, all);
    assert Elements(all) == peers.Keys;
    assert 2 * Total(peers) > weight ==> QuorumOf(peers, weight, all);
  }

  ghost function Listed(s: set<string>): (r: seq<string>)
    ensures Distinct(r) && forall x :: x in r <==> x in s
  {
    if s == {} then []
    else
      var x :| x in s;
      Listed(s - {x}) + [x]
  }
}
