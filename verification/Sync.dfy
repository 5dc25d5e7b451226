/** Catch-up: a node that starts from the genesis block and asks a peer for the blocks it lacks, round by round. */
module Sync {
  import opened Types
  import opened Weights
  import opened Ledgers
  import opened Chains
  import opened Ranges
  import opened Blockchains
  import opened Validations

  /** Adding the blocks of one answer, skipping what is not acceptable. */
  function Absorb(env: Env, base: Ledger, s: seq<Block>, blocks: seq<Block>): seq<Block> {
    if blocks == [] then s
    else
      var t := Absorb(env, base, s, blocks[..|blocks| - 1]);
      if Acceptable(env, base, t, blocks[|blocks| - 1]) then t + [blocks[|blocks| - 1]] else t
  }

  /** The peer that answers: its starting ledger, the blocks it stores, and its limits. */
  datatype Remote = Remote(base: Ledger, s: seq<Block>, max: nat, query: nat, sync: nat)

  ghost predicate RemoteOk(env: Env, r: Remote) {
    r.s != [] && Numbered(r.s) && Certified(env, r.base, r.s) && r.max >= 1 && r.query >= 1
  }

  /** `GET sync/h`: nothing above the peer's height, else the range from h on. */
  function Answer(r: Remote, h: int): seq<Block>
    requires r.s != [] && r.query >= 1
  {
    if |r.s| >= h then Served(r.base, r.s, r.max, r.query, h, h + r.sync) else []
  }

  /** What a node with the starting ledger `base` stores after n rounds. */
  function Rounds(env: Env, base: Ledger, r: Remote, n: nat): seq<Block>
    requires r.s != [] && r.query >= 1
  {
    if n == 0 then [r.s[0]]
    else
      var s := Rounds(env, base, r, n - 1);
      Absorb(env, base, s, Answer(r, |s| + 1))
  }

  /** Some vote in block i takes more stake than there is, so the copy in memory differs from the stored block. */
  predicate Altered(r: Remote, i: nat)
    requires i < |r.s|
  {
    HasCut(LedgerAt(r.base, r.s[..i]), r.s[i].tx)
  }

  /** An answer that starts at height h comes from memory. */
  predicate FromMemory(r: Remote, h: int) {
    h > |r.s| - WindowSize(r.s, r.max)
  }

  /** The voters of block i have quorum by the ledger of the local node. */
  predicate Supported(base: Ledger, r: Remote, i: nat)
    requires i < |r.s|
  {
    var l := LedgerAt(base, r.s[..i]);
    QuorumOf(l.peers, l.weight, VoteOrigins(r.s[i].votes))
  }

  /** Hash and serialiser tell every stored block from its copy in memory. */
  predicate CopiesTold(env: Env, r: Remote) {
    forall i :: 0 <= i < |r.s| ==> NoCollision(env, r.s[i], Cached(r.base, r.s, i))
  }

  /** Answers start at the height asked for: they are short enough, or there is little to ask for. */
  predicate Fits(r: Remote) {
    r.sync < r.query || |r.s| - 1 <= r.query
  }

  /** Block i (height i + 1) has no quorum here, or is altered in an answer taken from memory. */
  predicate Blocked(base: Ledger, r: Remote, i: nat)
    requires 1 <= i < |r.s|
  {
    !Supported(base, r, i) || (Altered(r, i) && FromMemory(r, RoundStart(r.sync + 1, i)))
  }

  /** The height the round that fetches block i starts at, when every round so far was complete. */
  function RoundStart(step: nat, i: nat): nat
    requires step >= 1 && i >= 1
  {
    if i <= step then 2 else step + RoundStart(step, i - step)
  }

  /** The height reached after n complete rounds of `step` blocks. */
  function HeightAfter(step: nat, n: nat): nat {
    if n == 0 then 1 else HeightAfter(step, n - 1) + step
  }

  lemma {:induction false} HeightAfterIs(step: nat, n: nat)
    ensures HeightAfter(step, n) == 1 + n * step
  {
    if n > 0 {
      HeightAfterIs(step, n - 1);
      assert n * step == (n - 1) * step + step;
    }
  }

  // ---------- one round ----------

  /** What the peer accepted the local node accepts too if the voters have quorum by its own ledger. */
  lemma StoredAcceptable(env: Env, base: Ledger, r: Remote, i: nat)
    requires RemoteOk(env, r) && 1 <= i < |r.s|
    ensures Acceptable(env, base, r.s[..i], r.s[i]) <==> Supported(base, r, i)
    ensures HashOk(env, r.s[i])
  {
    hide LedgerAt, QuorumOf, VoteOrigins, VotesVerify, TxOrigins, ValidTx;
    assert Acceptable(env, r.base, r.s[..i], r.s[i]);
  }

  lemma {:induction false} AbsorbStored(env: Env, base: Ledger, r: Remote, h: nat, m: nat)
    requires RemoteOk(env, r) && 1 <= h <= m <= |r.s| && forall i :: h <= i < m ==> Supported(base, r, i)
    ensures Absorb(env, base, r.s[..h], r.s[h..m]) == r.s[..m]
  {
    hide RemoteOk, Acceptable, Supported;
    if h < m {
      AbsorbStored(env, base, r, h, m - 1);
      assert r.s[h..m][..m - h - 1] == r.s[h..m - 1];
      StoredAcceptable(env, base, r, m - 1);
    }
  }

  /** Blocks of other heights, or altered ones, are all skipped. */
  lemma {:induction false} AbsorbSkips(env: Env, base: Ledger, s: seq<Block>, blocks: seq<Block>)
    requires forall i :: 0 <= i < |blocks| ==> !Acceptable(env, base, s, blocks[i])
    ensures Absorb(env, base, s, blocks) == s
  {
    if blocks != [] {
      AbsorbSkips(env, base, s, blocks[..|blocks| - 1]);
    }
  }

  lemma {:induction false} AbsorbConcat(env: Env, base: Ledger, s: seq<Block>, a: seq<Block>, b: seq<Block>)
    ensures Absorb(env, base, s, a + b) == Absorb(env, base, Absorb(env, base, s, a), b)
  {
    if b == [] {
      assert a + b == a;
    } else {
      assert (a + b)[..|a + b| - 1] == a + b[..|b| - 1];
      AbsorbConcat(env, base, s, a, b[..|b| - 1]);
    }
  }

  /** The cut guard says exactly when a copy in memory differs. */
  lemma AlteredCopy(r: Remote, i: nat)
    requires i < |r.s|
    ensures Altered(r, i) <==> Cached(r.base, r.s, i) != r.s[i]
  {
    ExecutedChanges(LedgerAt(r.base, r.s[..i]), r.s[i]);
  }

  /** An altered block does not hash to its own hash any more, so no node accepts it. */
  lemma AlteredIsRejected(env: Env, base: Ledger, r: Remote, i: nat, s: seq<Block>)
    requires RemoteOk(env, r) && CopiesTold(env, r) && 1 <= i < |r.s| && Altered(r, i)
    ensures !Acceptable(env, base, s, Cached(r.base, r.s, i))
  {
    hide Altered, LedgerAt, WrittenTxs, RemoteOk, ValidVotes, ValidTx, NoCollision;
    var b, c := r.s[i], Cached(r.base, r.s, i);
    AlteredCopy(r, i);
    StoredAcceptable(env, base, r, i);
    assert NoCollision(env, b, c);
    if HashOk(env, c) {
      HashCommits(env, b, c);
    }
  }

  lemma WrongHeightIsRejected(env: Env, base: Ledger, s: seq<Block>, b: Block)
    requires b.height != |s| + 1
    ensures !Acceptable(env, base, s, b)
  {
  }

  lemma UnsupportedIsRejected(env: Env, base: Ledger, r: Remote, i: nat)
    requires 1 <= i < |r.s| && !Supported(base, r, i)
    ensures !Acceptable(env, base, r.s[..i], r.s[i]) && !Acceptable(env, base, r.s[..i], Cached(r.base, r.s, i))
  {
    hide LedgerAt, WrittenTxs, ValidContent;
  }

  function AnswerEnd(r: Remote, h: nat): nat {
    if h + 1 + r.sync < |r.s| then h + 1 + r.sync else |r.s|
  }

  /** The block of height h + 1 + i in an answer that starts at h + 1. */
  function Offered(r: Remote, h: nat, i: nat): Block
    requires h + i < |r.s|
  {
    if FromMemory(r, h + 1) then Cached(r.base, r.s, h + i) else r.s[h + i]
  }

  /** The heights of an answer, and where it comes from. */
  lemma AnswerShape(r: Remote, h: nat)
    requires r.s != [] && r.query >= 1 && 1 <= h < |r.s| && Fits(r)
    ensures |Answer(r, h + 1)| == AnswerEnd(r, h) - h
    ensures var a := Answer(r, h + 1); forall i :: 0 <= i < |a| ==> a[i] == Offered(r, h, i)
  {
    hide Cached;
  }

  /** Block i is accepted in the round that starts above h. */
  predicate Passes(base: Ledger, r: Remote, h: nat, i: nat)
    requires i < |r.s|
  {
    Supported(base, r, i) && !(FromMemory(r, h + 1) && Altered(r, i))
  }

  predicate Clean(base: Ledger, r: Remote, h: nat, m: nat)
    requires m <= |r.s|
  {
    forall i :: h <= i < m ==> Passes(base, r, h, i)
  }

  lemma CleanSupported(base: Ledger, r: Remote, h: nat, m: nat)
    requires m <= |r.s| && Clean(base, r, h, m)
    ensures forall i :: h <= i < m ==> Supported(base, r, i)
  {
    hide Supported, Altered;
    forall i | h <= i < m ensures Supported(base, r, i) {
      assert Passes(base, r, h, i);
    }
  }

  lemma OfferedPasses(base: Ledger, r: Remote, h: nat, i: nat)
    requires h + i < |r.s| && Passes(base, r, h, h + i)
    ensures Offered(r, h, i) == r.s[h + i]
  {
    hide Altered, Cached, Supported;
    AlteredCopy(r, h + i);
  }

  lemma OfferedFails(env: Env, base: Ledger, r: Remote, h: nat, i: nat)
    requires RemoteOk(env, r) && CopiesTold(env, r) && 1 <= h && h + i < |r.s| && !Passes(base, r, h, h + i)
    ensures !Acceptable(env, base, r.s[..h + i], Offered(r, h, i))
  {
    hide RemoteOk, CopiesTold, Altered, Cached, Supported, Acceptable;
    if !Supported(base, r, h + i) {
      UnsupportedIsRejected(env, base, r, h + i);
    } else {
      AlteredIsRejected(env, base, r, h + i, r.s[..h + i]);
    }
  }

  lemma OfferedHeight(env: Env, r: Remote, h: nat, i: nat)
    requires RemoteOk(env, r) && h + i < |r.s|
    ensures Offered(r, h, i).height == h + i + 1
  {
    hide Certified;
  }

  /** A clean round brings all it asked for. */
  lemma CleanRound(env: Env, base: Ledger, r: Remote, h: nat)
    requires RemoteOk(env, r) && 1 <= h < |r.s| && Fits(r) && Clean(base, r, h, AnswerEnd(r, h))
    ensures Absorb(env, base, r.s[..h], Answer(r, h + 1)) == r.s[..AnswerEnd(r, h)]
  {
    hide Certified, Absorb, Answer, Offered, Passes, Supported, Fits;
    AnswerShape(r, h);
    var m := AnswerEnd(r, h);
    var a := Answer(r, h + 1);
    forall i | 0 <= i < m - h ensures a[i] == r.s[h..m][i] {
      assert Passes(base, r, h, h + i);
      OfferedPasses(base, r, h, i);
    }
    assert a == r.s[h..m];
    CleanSupported(base, r, h, m);
    AbsorbStored(env, base, r, h, m);
  }

  /** Any other round ends at the first block that does not pass. */
  lemma StoppedRound(env: Env, base: Ledger, r: Remote, h: nat, i: nat)
    requires RemoteOk(env, r) && CopiesTold(env, r) && Fits(r) && 1 <= h <= i < AnswerEnd(r, h)
    requires !Passes(base, r, h, i) && Clean(base, r, h, i)
    ensures Absorb(env, base, r.s[..h], Answer(r, h + 1)) == r.s[..i]
  {
    hide RemoteOk, CopiesTold, Absorb, Answer, Offered, Passes, Supported, Fits, Acceptable;
    RemoteHasBlocks(env, r);
    AnswerShape(r, h);
    var a := Answer(r, h + 1);
    var before, after := a[..i - h], a[i - h..];
    assert a == before + after;
    forall j | 0 <= j < i - h ensures before[j] == r.s[h..i][j] {
      assert Passes(base, r, h, h + j);
      OfferedPasses(base, r, h, j);
    }
    assert before == r.s[h..i];
    CleanSupported(base, r, h, i);
    AbsorbConcat(env, base, r.s[..h], before, after);
    AbsorbStored(env, base, r, h, i);
    forall k | 0 <= k < |after| ensures !Acceptable(env, base, r.s[..i], after[k]) {
      assert after[k] == a[i - h + k] == Offered(r, h, i - h + k);
      if k == 0 {
        OfferedFails(env, base, r, h, i - h);
      } else {
        OfferedHeight(env, r, h, i - h + k);
        WrongHeightIsRejected(env, base, r.s[..i], after[k]);
      }
    }
    AbsorbSkips(env, base, r.s[..i], after);
  }

  lemma RemoteHasBlocks(env: Env, r: Remote)
    requires RemoteOk(env, r)
    ensures r.s != [] && r.query >= 1
  {
  }

  // ---------- all rounds ----------

  lemma {:induction false} RoundStartOf(d: nat, n: nat, j: nat)
    requires d >= 1 && HeightAfter(d, n) <= j < HeightAfter(d, n) + d
    ensures RoundStart(d, j) == HeightAfter(d, n) + 1
  {
    if n > 0 {
      HeightAfterPositive(d, n - 1);
      RoundStartOf(d, n - 1, j - d);
    }
  }

  lemma {:induction false} RoundStartBelow(d: nat, i: nat)
    requires d >= 1 && i >= 1
    ensures RoundStart(d, i) <= i + 1
  {
    if i > d {
      RoundStartBelow(d, i - d);
    }
  }

  predicate NoneBlocked(base: Ledger, r: Remote, i: nat)
    requires i <= |r.s|
  {
    forall j :: 1 <= j < i ==> !Blocked(base, r, j)
  }

  /** In the round that starts where RoundStart says, blocked and not passing are the same. */
  lemma BlockedPasses(base: Ledger, r: Remote, n: nat, j: nat)
    requires 1 <= j < |r.s| && HeightAfter(r.sync + 1, n) <= j < HeightAfter(r.sync + 1, n) + r.sync + 1
    ensures Passes(base, r, HeightAfter(r.sync + 1, n), j) <==> !Blocked(base, r, j)
  {
    hide Altered, FromMemory, Supported;
    RoundStartOf(r.sync + 1, n, j);
  }

  lemma NotBlockedClean(base: Ledger, r: Remote, n: nat, m: nat)
    requires m <= |r.s| && m <= HeightAfter(r.sync + 1, n) + r.sync + 1 && NoneBlocked(base, r, m)
    ensures Clean(base, r, HeightAfter(r.sync + 1, n), m)
  {
    hide Passes, Blocked, HeightAfter;
    var h := HeightAfter(r.sync + 1, n);
    HeightAfterPositive(r.sync + 1, n);
    forall j | h <= j < m ensures Passes(base, r, h, j) {
      BlockedPasses(base, r, n, j);
    }
  }

  /** With nothing blocked the rounds go on to the end of the peer's chain, and stay there. */
  lemma {:induction false} RoundsComplete(env: Env, base: Ledger, r: Remote, n: nat)
    requires RemoteOk(env, r) && Fits(r) && NoneBlocked(base, r, |r.s|)
    ensures var h := HeightAfter(r.sync + 1, n); Rounds(env, base, r, n) == r.s[..if h < |r.s| then h else |r.s|]
  {
    hide Certified, Answer, FromMemory, Blocked, Absorb, Rounds, Fits;
    if n == 0 {
      NoRound(env, base, r);
    } else {
      RoundsComplete(env, base, r, n - 1);
      var h := HeightAfter(r.sync + 1, n - 1);
      HeightAfterPositive(r.sync + 1, n - 1);
      NextRound(env, base, r, n - 1);
      if h < |r.s| {
        NotBlockedClean(base, r, n - 1, AnswerEnd(r, h));
        CleanRound(env, base, r, h);
      } else {
        assert r.s[..|r.s|] == r.s;
        NothingAbove(env, base, r);
      }
    }
  }

  lemma NothingAbove(env: Env, base: Ledger, r: Remote)
    requires r.s != [] && r.query >= 1
    ensures Absorb(env, base, r.s, Answer(r, |r.s| + 1)) == r.s
  {
  }

  /** A blocked block is never passed: the loop gets there and asks for it for ever. */
  lemma {:induction false} SyncStalls(env: Env, base: Ledger, r: Remote, i: nat, n: nat)
    requires RemoteOk(env, r) && CopiesTold(env, r) && Fits(r)
    requires 1 <= i < |r.s| && Blocked(base, r, i) && NoneBlocked(base, r, i)
    ensures Rounds(env, base, r, n) == r.s[..if HeightAfter(r.sync + 1, n) < i then HeightAfter(r.sync + 1, n) else i]
  {
    hide Certified, CopiesTold, Absorb, Answer, FromMemory, Blocked, Rounds, Fits, Passes;
    var d := r.sync + 1;
    if n == 0 {
      NoRound(env, base, r);
    } else {
      SyncStalls(env, base, r, i, n - 1);
      var h := HeightAfter(d, n - 1);
      HeightAfterPositive(d, n - 1);
      NextRound(env, base, r, n - 1);
      if h + d <= i {
        NotBlockedClean(base, r, n - 1, h + d);
        CleanRound(env, base, r, h);
      } else if h < i {
        NotBlockedClean(base, r, n - 1, i);
        BlockedPasses(base, r, n - 1, i);
        StoppedRound(env, base, r, h, i);
      } else {
        BlockedAgain(base, r, i);
        StoppedRound(env, base, r, i, i);
      }
    }
  }

  lemma BlockedAgain(base: Ledger, r: Remote, i: nat)
    requires 1 <= i < |r.s| && Blocked(base, r, i)
    ensures !Passes(base, r, i, i)
  {
    hide Altered, Supported;
    RoundStartBelow(r.sync + 1, i);
  }

  lemma NoRound(env: Env, base: Ledger, r: Remote)
    requires RemoteOk(env, r)
    ensures Rounds(env, base, r, 0) == r.s[..1] && HeightAfter(r.sync + 1, 0) == 1
  {
  }

  lemma NextRound(env: Env, base: Ledger, r: Remote, n: nat)
    requires r.s != [] && r.query >= 1
    ensures var s := Rounds(env, base, r, n);
      Rounds(env, base, r, n + 1) == Absorb(env, base, s, Answer(r, |s| + 1))
  {
  }

  lemma {:induction false} HeightAfterPositive(d: nat, n: nat)
    ensures HeightAfter(d, n) >= 1
  {
    if n > 0 {
      HeightAfterPositive(d, n - 1);
    }
  }

  lemma {:induction false} FirstBlocked(base: Ledger, r: Remote, m: nat) returns (i: nat)
    requires m <= |r.s| && !NoneBlocked(base, r, m)
    ensures 1 <= i < m && Blocked(base, r, i) && NoneBlocked(base, r, i)
  {
    hide Blocked;
    if NoneBlocked(base, r, m - 1) {
      i := m - 1;
    } else {
      i := FirstBlocked(base, r, m - 1);
    }
  }

  /** An answer starts at the next height exactly if it is short enough or few blocks are left. */
  lemma OversizedAnswer(env: Env, base: Ledger, r: Remote, h: nat)
    requires RemoteOk(env, r) && 1 <= h < |r.s|
    ensures Answer(r, h + 1)[0].height == h + 1 <==> (r.sync < r.query || |r.s| - h <= r.query)
    ensures Answer(r, h + 1)[0].height != h + 1 ==>
              Absorb(env, base, r.s[..h], Answer(r, h + 1)) == r.s[..h]
  {
    hide Certified, Acceptable, Served, Absorb;
    ServedBlocks(r.base, r.s, r.max, r.query, h + 1, h + 1 + r.sync);
    var a := Answer(r, h + 1);
    if a[0].height != h + 1 {
      forall k | 0 <= k < |a| ensures !Acceptable(env, base, r.s[..h], a[k]) {
        WrongHeightIsRejected(env, base, r.s[..h], a[k]);
      }
      AbsorbSkips(env, base, r.s[..h], a);
    }
  }

  /** If answers do not fit the loop never gets past the genesis block. */
  lemma {:induction false} OversizedSync(env: Env, base: Ledger, r: Remote, n: nat)
    requires RemoteOk(env, r) && !Fits(r)
    ensures Rounds(env, base, r, n) == r.s[..1]
  {
    hide Certified, Absorb, Answer, Rounds;
    NoRound(env, base, r);
    if n > 0 {
      OversizedSync(env, base, r, n - 1);
      NextRound(env, base, r, n - 1);
      OversizedAnswer(env, base, r, 1);
    }
  }

  /**
   What catch-up achieves, whatever ledger the local node starts from and whatever the limits are: what it has is
   always a prefix of the peer's chain, and it has reached a target after n rounds exactly if answers fit, no block
   below the target is blocked and n rounds are enough.
   */
  lemma SyncOutcome(env: Env, base: Ledger, r: Remote, target: nat, n: nat)
    requires RemoteOk(env, r) && CopiesTold(env, r) && 1 <= target <= |r.s|
    ensures Rounds(env, base, r, n) <= r.s
    ensures target <= |Rounds(env, base, r, n)| <==>
              target == 1 || (Fits(r) && NoneBlocked(base, r, target) && target <= 1 + n * (r.sync + 1))
  {
    hide RemoteOk, CopiesTold, Rounds, Blocked, Fits;
    RemoteHasBlocks(env, r);
    HeightAfterIs(r.sync + 1, n);
    HeightAfterPositive(r.sync + 1, n);
    if !Fits(r) {
      OversizedSync(env, base, r, n);
    } else if NoneBlocked(base, r, |r.s|) {
      RoundsComplete(env, base, r, n);
    } else {
      var i := FirstBlocked(base, r, |r.s|);
      SyncStalls(env, base, r, i, n);
      if !NoneBlocked(base, r, target) {
        var j := FirstBlocked(base, r, target);
        assert !(i < j) && !(j < i);
      }
    }
  }

  /** A node that starts from the peer's own ledger is only blocked by what memory altered. */
  lemma SameStartBlocks(env: Env, r: Remote, i: nat)
    requires RemoteOk(env, r) && 1 <= i < |r.s|
    ensures Blocked(r.base, r, i) <==> Altered(r, i) && FromMemory(r, RoundStart(r.sync + 1, i))
  {
    hide Altered, LedgerAt, ValidContent;
    assert Acceptable(env, r.base, r.s[..i], r.s[i]);
  }

  // ---------- the loop itself ----------

  lemma HeightIs(b: Blockchain)
    requires b.Valid()
    ensures b.height == |b.stored| < Text.KEY_LIMIT
  {
  }

  lemma AnswerLength(r: Remote, h: nat)
    requires r.s != [] && r.query >= 1 && 1 <= h < |r.s| && Fits(r)
    ensures |Answer(r, h + 1)| <= |r.s| - h
  {
    AnswerShape(r, h);
  }

  method AddAll(local: Blockchain, blocks: seq<Block>)
    requires local.Valid() && |local.stored| + |blocks| < Text.KEY_LIMIT
    modifies local
    ensures local.Valid() && local.base == old(local.base)
    ensures local.stored == Absorb(local.env, local.base, old(local.stored), blocks)
    ensures |old(local.stored)| <= |local.stored|
  {
    hide Blockchain.Linked, Certified, Acceptable, Credits, Ops, Blockchain.LedgerView;
    for i := 0 to |blocks|
      invariant local.Valid() && local.base == old(local.base)
      invariant |old(local.stored)| <= |local.stored| <= |old(local.stored)| + i
      invariant local.stored == Absorb(local.env, local.base, old(local.stored), blocks[..i])
    {
      assert blocks[..i + 1][..i] == blocks[..i];
      var ok := local.Add(blocks[i]);
    }
    assert blocks[..|blocks|] == blocks;
  }

  /** The local node already has the block that the network calls its latest. */
  predicate HasTip(local: Blockchain, hash: string)
    reads local
  {
    local.latestBlock.Some? && local.latestBlock.value.hash == hash
  }

  function RemoteOf(remote: Blockchain, stored: seq<Block>, base: Ledger, networkSyncSize: nat): Remote {
    Remote(base, stored, remote.maxBlocks, remote.maxQuery, networkSyncSize)
  }

  /** The answer to the request for the genesis block is the stored one unless its copy in memory was altered. */
  lemma GenesisAnswer(r: Remote)
    requires r.s != [] && r.query >= 1
    ensures Served(r.base, r.s, r.max, r.query, 1, -1) == [r.s[0]] <==> !(FromMemory(r, 1) && Altered(r, 0))
  {
    hide Cached, Altered;
    AlteredCopy(r, 0);
    var a := Served(r.base, r.s, r.max, r.query, 1, -1);
    assert a == [a[0]] && a[0] == if FromMemory(r, 1) then Cached(r.base, r.s, 0) else r.s[0];
  }

  lemma RemoteFacts(env: Env, r: Remote)
    requires RemoteOk(env, r)
    ensures r.s[0].height == 1 && |r.s| < Text.KEY_LIMIT
  {
  }

  /**
   syncWithNetwork against a peer that stays as it is, from any state of the local node. The loop ends because the
   target can be reached (else SyncOutcome says it cannot), and leaves a prefix of the peer's chain; being a valid
   node, the local one then holds the ledger this prefix gives on top of what its reset left.
   */
  method SyncWithNetwork(local: Blockchain, remote: Blockchain, target: nat, networkHash: string, networkSyncSize: nat)
      returns (ghost rounds: nat)
    requires local != remote && local.Configured() && remote.Valid() && remote.env == local.env
    requires var r, base := RemoteOf(remote, remote.stored, remote.base, networkSyncSize), Cleared(local.LedgerView());
      && RemoteOk(local.env, r) && CopiesTold(local.env, r) && !(FromMemory(r, 1) && Altered(r, 0))
      && 1 <= target <= |r.s| && (target == 1 || (Fits(r) && NoneBlocked(base, r, target)))
    modifies local
    ensures old(HasTip(local, networkHash)) ==> unchanged(local)
    ensures !old(HasTip(local, networkHash)) ==>
              && local.Valid() && local.base == Cleared(old(local.LedgerView()))
              && local.stored <= remote.stored && target <= |local.stored|
    ensures rounds == 0 || 1 + (rounds - 1) * (networkSyncSize + 1) < target
  {
    hide RemoteOk, CopiesTold, Blockchain.Linked, Certified, Rounds, Absorb, Served, NoneBlocked, RangeLo, RangeHi,
      FromMemory, Altered, Fits, Blockchain.LedgerView;
    ghost var r := RemoteOf(remote, remote.stored, remote.base, networkSyncSize);
    ghost var base := Cleared(local.LedgerView());
    RemoteHasBlocks(local.env, r);
    RemoteFacts(local.env, r);
    GenesisAnswer(r);
    NoRound(local.env, base, r);
    rounds := 0;
    if HasTip(local, networkHash) {
      return;
    }
    var genesis := remote.GetRange(1, -1);
    local.Reset(genesis[0]);
    assert r.s[..1] == [r.s[0]];
    var h := 1;
    while target > h
      invariant local.Valid() && local.base == base
      invariant local.stored == Rounds(local.env, base, r, rounds) && 1 <= h == |local.stored|
      invariant rounds == 0 || 1 + (rounds - 1) * (networkSyncSize + 1) < target
      decreases target - rounds
    {
      SyncOutcome(local.env, base, r, target, rounds);
      NextRound(local.env, base, r, rounds);
      HeightIs(remote);
      var blocks: seq<Block> := [];
      if remote.height >= h + 1 {
        AnswerLength(r, h);
        blocks := remote.GetRange(h + 1, h + 1 + networkSyncSize);
      }
      AddAll(local, blocks);
      rounds := rounds + 1;
      h := local.height;
      HeightIs(local);
    }
    SyncOutcome(local.env, base, r, target, rounds);
  }
}
