/** Which peer validates the next block: round-robin by height, skipping peers that are not online. */
module Validators {
  import opened Text

  /** What a node sees of the network: the peers sorted by public key, and the ones it takes to be online. */
  datatype View = View(peers: seq<string>, online: set<string>)

  predicate SomeOnline(v: View) {
    exists i :: 0 <= i < |v.peers| && v.peers[i] in v.online
  }

  predicate ViewOk(v: View) {
    Sorted(v.peers) && SomeOnline(v)
  }

  function StringDiff(a: string, b: string): nat
    requires |a| == |b|
  {
    if a == "" then 0
    else
      var d := a[|a| - 1] as int - b[|b| - 1] as int;
      StringDiff(a[..|a| - 1], b[..|b| - 1]) + if d < 0 then -d else d
  }

  /** Where the search starts: at the height, or, if that peer is offline, at the distance of the last two hashes. */
  function StartIndex(v: View, height: nat, hash: string, previousHash: string): (i: nat)
    requires v.peers != [] && |hash| == |previousHash|
    ensures i < |v.peers|
  {
    if v.peers[height % |v.peers|] in v.online then height % |v.peers|
    else StringDiff(hash, previousHash) % |v.peers|
  }

  /** `k` steps further around the circle. */
  function Around(v: View, start: nat, k: nat): string
    requires start < |v.peers| && k <= |v.peers|
  {
    v.peers[if start + k >= |v.peers| then start + k - |v.peers| else start + k]
  }

  /** The first online peer on the circle, `k` steps from the start. */
  predicate FirstOnline(v: View, start: nat, k: nat)
    requires start < |v.peers|
  {
    && k < |v.peers| && Around(v, start, k) in v.online
    && forall j :: 0 <= j < k ==> Around(v, start, j) !in v.online
  }

  /** A peer is the validator of a round: it is the first online peer from the start index. */
  predicate IsChosen(v: View, height: nat, hash: string, previousHash: string, validator: string)
    requires |hash| == |previousHash|
  {
    exists k | 0 <= k < |v.peers| ::
      FirstOnline(v, StartIndex(v, height, hash, previousHash), k)
      && Around(v, StartIndex(v, height, hash, previousHash), k) == validator
  }

  /** How far two characters are apart. */
  function Apart(x: char, y: char): nat {
    if x < y then y as int - x as int else x as int - y as int
  }

  /** Sums that start at zero and grow, character by character, by how far the two texts are apart there. */
  predicate DistanceSums(a: string, b: string, sums: seq<nat>) {
    && |a| == |b| && |sums| == |a| + 1 && sums[0] == 0
    && forall i :: 0 <= i < |a| ==> sums[i + 1] == sums[i] + Apart(a[i], b[i])
  }

  lemma {:induction false} StringDiffIs(a: string, b: string, sums: seq<nat>)
    requires DistanceSums(a, b, sums)
    ensures StringDiff(a, b) == sums[|a|]
  {
    if a != "" {
      var n := |a| - 1;
      assert sums[n + 1] == sums[n] + Apart(a[n], b[n]);
      StringDiffIs(a[..n], b[..n], sums[..n + 1]);
    }
  }

  method ComputeStringDiff(a: string, b: string) returns (r: nat)
    requires |a| == |b|
    ensures r == StringDiff(a, b)
    ensures forall sums :: DistanceSums(a, b, sums) ==> r == sums[|a|]
  {
    r := 0;
    for i := 0 to |a|
      invariant r == StringDiff(a[..i], b[..i])
    {
      assert a[..i + 1][..i] == a[..i] && b[..i + 1][..i] == b[..i];
      var d := a[i] as int - b[i] as int;
      r := r + if d < 0 then -d else d;
    }
    assert a[..|a|] == a && b[..|b|] == b;
    forall sums | DistanceSums(a, b, sums) ensures r == sums[|a|] {
      StringDiffIs(a, b, sums);
    }
  }

  /** calcValidator: the wrap-around search ends because some peer is online. */
  method CalcValidator(v: View, height: nat, hash: string, previousHash: string) returns (validator: string)
    requires ViewOk(v) && |hash| == |previousHash|
    ensures IsChosen(v, height, hash, previousHash, validator)
    ensures forall sums :: DistanceSums(hash, previousHash, sums) ==> IsMet(v, height, sums[|hash|], validator)
  {
    var n := |v.peers|;
    var i := height % n;
    if v.peers[i] !in v.online {
      i := ComputeStringDiff(hash, previousHash);
      i := i % n;
    }
    ghost var start := i;
    ghost var k := 0;
    while v.peers[i] !in v.online
      invariant start == StartIndex(v, height, hash, previousHash) && k <= n && i < n
      invariant i == if start + k >= n then start + k - n else start + k
      invariant forall j :: 0 <= j < k ==> Around(v, start, j) !in v.online
      decreases n - k
    {
      if k == n {
        OnlineWithin(v, start);
      }
      i := i + 1;
      i := if i >= n then 0 else i;
      k := k + 1;
    }
    if k == n {
      OnlineWithin(v, start);
    }
    assert FirstOnline(v, start, k);
    validator := v.peers[i];
    forall sums | DistanceSums(hash, previousHash, sums) ensures IsMet(v, height, sums[|hash|], validator) {
      ChosenIsMet(v, height, hash, previousHash, sums, validator);
    }
  }

  /** Every peer is met within one turn of the circle. */
  lemma OnlineWithin(v: View, start: nat)
    requires SomeOnline(v) && start < |v.peers|
    ensures exists j :: 0 <= j < |v.peers| && Around(v, start, j) in v.online
  {
    var i :| 0 <= i < |v.peers| && v.peers[i] in v.online;
    var j := if i >= start then i - start else i - start + |v.peers|;
    assert Around(v, start, j) == v.peers[i];
  }

  /** The peer at a place counted around the sorted list. */
  function Seat(v: View, place: nat): string
    requires v.peers != []
  {
    v.peers[place % |v.peers|]
  }

  /**
   The peer at the height's place, if it is online; else the first online one from the place given by the distance of
   the last two hashes.
   */
  predicate IsMet(v: View, height: nat, distance: nat, validator: string) {
    v.peers != [] &&
    if Seat(v, height) in v.online then validator == Seat(v, height)
    else exists k: nat :: k < |v.peers| && FirstFromSeat(v, distance, k) && validator == Seat(v, distance + k)
  }

  predicate FirstFromSeat(v: View, place: nat, k: nat)
    requires v.peers != []
  {
    Seat(v, place + k) in v.online && forall p :: place <= p < place + k ==> Seat(v, p) !in v.online
  }

  lemma AroundIs(v: View, distance: nat, k: nat)
    requires k < |v.peers|
    ensures Around(v, distance % |v.peers|, k) == Seat(v, distance + k)
  {
    var n := |v.peers|;
    var q, r := distance / n, distance % n;
    assert distance == q * n + r;
    var p := if r + k >= n then r + k - n else r + k;
    var c := if r + k >= n then q + 1 else q;
    assert (q + 1) * n == q * n + n;
    assert distance + k == (distance + k) / n * n + (distance + k) % n;
    Euclid((distance + k) / n, (distance + k) % n, c, p, n);
  }

  /** The choice, written out with the distance sums and without the search. */
  lemma ChosenIsMet(v: View, height: nat, hash: string, previousHash: string, sums: seq<nat>, x: string)
    requires v.peers != [] && DistanceSums(hash, previousHash, sums)
    ensures IsChosen(v, height, hash, previousHash, x) <==> IsMet(v, height, sums[|hash|], x)
  {
    StringDiffIs(hash, previousHash, sums);
    MetFrom(v, height, hash, previousHash, sums[|hash|], x);
  }

  lemma MetFrom(v: View, height: nat, hash: string, previousHash: string, distance: nat, x: string)
    requires v.peers != [] && |hash| == |previousHash| && StringDiff(hash, previousHash) == distance
    ensures IsChosen(v, height, hash, previousHash, x) <==> IsMet(v, height, distance, x)
  {
    hide StringDiff;
    hide Seat, Around;
    var n, start := |v.peers|, StartIndex(v, height, hash, previousHash);
    AtHeight(v, height);
    if Seat(v, height) in v.online {
      AroundIs(v, height, 0);
      assert FirstOnline(v, start, 0);
    } else {
      forall k | 0 <= k < n
        ensures Around(v, start, k) == Seat(v, distance + k)
        ensures FirstOnline(v, start, k) <==> FirstFromSeat(v, distance, k)
      {
        SameSearch(v, distance, k);
      }
    }
  }

  lemma AtHeight(v: View, height: nat)
    requires v.peers != []
    ensures Seat(v, height) == v.peers[height % |v.peers|]
  {
  }

  lemma SameSearch(v: View, distance: nat, k: nat)
    requires k < |v.peers|
    ensures Around(v, distance % |v.peers|, k) == Seat(v, distance + k)
    ensures FirstOnline(v, distance % |v.peers|, k) <==> FirstFromSeat(v, distance, k)
  {
    hide Seat, Around;
    var start := distance % |v.peers|;
    forall j: nat | j <= k ensures Around(v, start, j) == Seat(v, distance + j) {
      AroundIs(v, distance, j);
    }
    if FirstOnline(v, start, k) {
      forall p | distance <= p < distance + k ensures Seat(v, p) !in v.online {
        assert Around(v, start, p - distance) == Seat(v, distance + (p - distance));
      }
    }
    if FirstFromSeat(v, distance, k) {
      forall j | 0 <= j < k ensures Around(v, start, j) !in v.online {
        assert Seat(v, distance + j) !in v.online;
      }
    }
  }

  /** With the turn's peer offline and the peer at the distance online, that one is the validator. */
  lemma OfflineTurn(v: View, height: nat, hash: string, previousHash: string, sums: seq<nat>, x: string)
    requires v.peers != [] && DistanceSums(hash, previousHash, sums)
    requires v.peers[height % |v.peers|] !in v.online && v.peers[sums[|hash|] % |v.peers|] in v.online
    ensures IsChosen(v, height, hash, previousHash, x) <==> x == v.peers[sums[|hash|] % |v.peers|]
  {
    hide IsChosen, DistanceSums;
    ChosenIsMet(v, height, hash, previousHash, sums, x);
    assert |sums| == |hash| + 1 by { SumsLength(hash, previousHash, sums); }
    OfflineMet(v, height, sums[|hash|], x);
  }

  lemma OfflineMet(v: View, height: nat, distance: nat, x: string)
    requires v.peers != [] && Seat(v, height) !in v.online && Seat(v, distance) in v.online
    ensures IsMet(v, height, distance, x) <==> x == Seat(v, distance)
  {
    hide Seat;
    assert distance + 0 == distance;
    assert FirstFromSeat(v, distance, 0);
    if k: nat :| k < |v.peers| && FirstFromSeat(v, distance, k) && x == Seat(v, distance + k) {
      LeastSeat(v, distance, k);
    }
  }

  lemma LeastSeat(v: View, place: nat, k: nat)
    requires v.peers != [] && Seat(v, place) in v.online && FirstFromSeat(v, place, k)
    ensures k == 0
  {
    hide Seat;
  }

  lemma SumsLength(a: string, b: string, sums: seq<nat>)
    requires DistanceSums(a, b, sums)
    ensures |sums| == |a| + 1 && |a| == |b|
  {
  }

  lemma {:induction false} FirstFrom(v: View, start: nat, n: nat) returns (k: nat)
    requires start < |v.peers| && n < |v.peers| && Around(v, start, n) in v.online
    ensures k <= n && FirstOnline(v, start, k)
  {
    if j: nat :| j < n && Around(v, start, j) in v.online {
      k := FirstFrom(v, start, j);
    } else {
      k := n;
    }
  }

  /** There is somebody to choose exactly if some peer is online; else the search goes round for ever. */
  lemma SearchEnds(v: View, height: nat, hash: string, previousHash: string)
    requires v.peers != [] && |hash| == |previousHash|
    ensures (exists x :: IsChosen(v, height, hash, previousHash, x)) <==> SomeOnline(v)
  {
    var start := StartIndex(v, height, hash, previousHash);
    if SomeOnline(v) {
      OnlineWithin(v, start);
      var j :| 0 <= j < |v.peers| && Around(v, start, j) in v.online;
      var k := FirstFrom(v, start, j);
      assert IsChosen(v, height, hash, previousHash, Around(v, start, k));
    }
  }

  lemma FirstIsLeast(v: View, start: nat, k: nat, m: nat)
    requires start < |v.peers| && k < |v.peers| && m < |v.peers|
    requires Around(v, start, k) in v.online && FirstOnline(v, start, m)
    ensures m <= k
  {
  }

  /** Nodes with the same height, tip, peers and online view choose the same validator. */
  lemma ChoiceIsUnique(v: View, w: View, height: nat, hash: string, previousHash: string, a: string, b: string)
    requires Sorted(v.peers) && Sorted(w.peers) && v.online == w.online && forall x :: x in v.peers <==> x in w.peers
    requires |hash| == |previousHash|
    requires IsChosen(v, height, hash, previousHash, a) && IsChosen(w, height, hash, previousHash, b)
    ensures a == b
  {
    SortedUnique(v.peers, w.peers);
    var start := StartIndex(v, height, hash, previousHash);
    var k :| 0 <= k < |v.peers| && FirstOnline(v, start, k) && Around(v, start, k) == a;
    var m :| 0 <= m < |v.peers| && FirstOnline(v, start, m) && Around(v, start, m) == b;
    FirstIsLeast(v, start, k, m);
    FirstIsLeast(v, start, m, k);
  }

  /** While everybody is online, N consecutive heights give each of the N peers exactly one turn. */
  lemma FairRotation(v: View, h: nat, peer: string) returns (turn: nat)
    requires Sorted(v.peers) && (forall x :: x in v.peers ==> x in v.online) && peer in v.peers
    ensures h <= turn < h + |v.peers|
    ensures forall g, hash, previousHash :: h <= g < h + |v.peers| && |hash| == |previousHash| ==>
              (IsChosen(v, g, hash, previousHash, peer) <==> g == turn)
  {
    var n := |v.peers|;
    var i :| 0 <= i < n && v.peers[i] == peer;
    turn := Turn(h, i, n);
    forall g: nat, hash: string, previousHash: string | h <= g < h + n && |hash| == |previousHash|
      ensures IsChosen(v, g, hash, previousHash, peer) <==> g == turn
    {
      OnTurn(v, g, hash, previousHash);
      if g % n == i {
        SameResidue(g, turn, n);
      } else {
        assert LexLess(v.peers[g % n], peer) || LexLess(peer, v.peers[g % n]);
        LexIrreflexive(peer);
      }
    }
  }

  lemma LexIrreflexive(a: string)
    ensures !LexLess(a, a)
  {
    if LexLess(a, a) {
      LexAsymmetric(a, a);
    }
  }

  /** With everybody online the peer at the height's index is chosen, and nobody else. */
  lemma OnTurn(v: View, g: nat, hash: string, previousHash: string)
    requires v.peers != [] && (forall x :: x in v.peers ==> x in v.online) && |hash| == |previousHash|
    ensures forall peer :: IsChosen(v, g, hash, previousHash, peer) <==> peer == v.peers[g % |v.peers|]
  {
    var n := |v.peers|;
    var start := StartIndex(v, g, hash, previousHash);
    assert start == g % n < n;
    assert Around(v, start, 0) == v.peers[g % n];
    assert FirstOnline(v, start, 0);
  }

  /** The height from h on whose remainder is i. */
  lemma Turn(h: nat, i: nat, n: nat) returns (turn: nat)
    requires i < n
    ensures h <= turn < h + n && turn % n == i
  {
    var q, r := h / n, h % n;
    assert h == q * n + r;
    turn := if i >= r then h + i - r else h + i - r + n;
    if i < r {
      assert (q + 1) * n == q * n + n;
    }
    Euclid(turn / n, turn % n, if i >= r then q else q + 1, i, n);
  }

  lemma SameResidue(a: nat, b: nat, n: nat)
    requires n > 0 && a % n == b % n && -(n as int) < a as int - b as int < n as int
    ensures a == b
  {
    var p, q := a / n, b / n;
    assert a == p * n + a % n && b == q * n + b % n;
    assert (p - q) * n == p * n - q * n;
    Smaller(p - q, n);
  }

  lemma Euclid(q: int, r: int, q': int, r': int, n: int)
    requires 0 <= r < n && 0 <= r' < n && q * n + r == q' * n + r'
    ensures q == q' && r == r'
  {
    assert (q - q') * n == q * n - q' * n;
    Smaller(q - q', n);
  }

  /** A multiple of n strictly between -n and n is zero. */
  lemma Smaller(d: int, n: int)
    requires -n < d * n < n
    ensures d == 0
  {
    if d >= 1 {
      assert d * n == (d - 1) * n + n;
      NonNegativeProduct(d - 1, n);
    } else if d <= -1 {
      assert -d * n == (-d - 1) * n + n;
      NonNegativeProduct(-d - 1, n);
    }
  }

  lemma NonNegativeProduct(a: int, b: int)
    requires a >= 0 && b >= 0
    ensures a * b >= 0
  {
  }
}
