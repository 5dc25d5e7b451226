/** Two ledgers: if they accept different blocks at a height, somebody with stake signed both. */
module Agreement {
  import opened Types
  import opened Weights
  import opened Ledgers
  import opened Validations
  import opened Chains
  import opened Blockchains

  /** The blocks of a node that started from a genesis block on an empty ledger. */
  ghost predicate FromGenesis(env: Env, s: seq<Block>) {
    s != [] && Numbered(s) && KeysOk(s[0].tx) && Certified(env, EMPTY, s)
  }

  /** This peer's verifying votes are on both blocks. */
  ghost predicate Signed(env: Env, pk: string, b: Block) {
    exists v :: v in b.votes && v.origin == pk && env.verify(pk, v.sig, b.hash)
  }

  ghost predicate DoubleSigned(env: Env, l: Ledger, b: Block, c: Block) {
    exists pk :: pk in l.peers && l.peers[pk].stake > 0 && Signed(env, pk, b) && Signed(env, pk, c)
  }

  lemma FromGenesisPrefix(env: Env, s: seq<Block>, n: nat)
    requires FromGenesis(env, s) && 1 <= n <= |s|
    ensures FromGenesis(env, s[..n])
  {
    forall i | 1 <= i < n ensures Acceptable(env, EMPTY, s[..n][..i], s[..n][i]) {
      assert s[..n][..i] == s[..i];
    }
  }

  /** The ledger of a certified chain records exactly the stake of its peers. */
  lemma {:induction false} CertifiedSound(env: Env, s: seq<Block>)
    requires s == [] || FromGenesis(env, s)
    ensures Sound(LedgerAt(EMPTY, s), 0)
  {
    if s == [] {
      StartInOrder();
    } else {
      var front, last := s[..|s| - 1], s[|s| - 1];
      if front != [] {
        FromGenesisPrefix(env, s, |s| - 1);
        assert Acceptable(env, EMPTY, s[..|s| - 1], s[|s| - 1]);
        ValidContentKeys(env, last);
      }
      CertifiedSound(env, front);
      OpsOk(last.tx);
      ApplyAllSound(LedgerAt(EMPTY, front), 0, Ops(last.tx));
    }
  }

  lemma {:induction false} SameTransactionsSameLedger(base: Ledger, s: seq<Block>, t: seq<Block>)
    requires |s| == |t| && forall i :: 0 <= i < |s| ==> s[i].tx == t[i].tx
    ensures LedgerAt(base, s) == LedgerAt(base, t)
  {
    if s != [] {
      SameTransactionsSameLedger(base, s[..|s| - 1], t[..|t| - 1]);
    }
  }

  lemma SameHashSameBlock(env: Env, s: seq<Block>, t: seq<Block>, i: nat)
    requires NoCollisions(env, s, t)
    requires Certified(env, EMPTY, s) && Certified(env, EMPTY, t) && 1 <= i < |s| && i < |t|
    requires s[i - 1].hash == t[i - 1].hash && s[i].hash == t[i].hash
    ensures s[i].(votes := []) == t[i].(votes := [])
  {
    hide NoCollision, ValidTx, ValidVotes, LedgerAt;
    assert Acceptable(env, EMPTY, s[..i], s[i]) && Acceptable(env, EMPTY, t[..i], t[i]);
    assert s[..i][i - 1] == s[i - 1] && t[..i][i - 1] == t[i - 1];
    HashCommits(env, s[i], t[i]);
  }

  /** As long as the hashes agree, so do transactions, peers, stakes, weight, tallies and state; votes may differ. */
  lemma {:induction false} CommonHistory(env: Env, s: seq<Block>, t: seq<Block>, n: nat)
    requires NoCollisions(env, s, t)
    requires FromGenesis(env, s) && FromGenesis(env, t) && s[0].(votes := []) == t[0].(votes := [])
    requires n <= |s| && n <= |t| && forall i :: 0 <= i < n ==> s[i].hash == t[i].hash
    ensures forall i :: 0 <= i < n ==> s[i].(votes := []) == t[i].(votes := [])
    ensures LedgerAt(EMPTY, s[..n]) == LedgerAt(EMPTY, t[..n])
  {
    hide NoCollisions, Acceptable, LedgerAt;
    forall i | 1 <= i < n ensures s[i].(votes := []) == t[i].(votes := []) {
      SameHashSameBlock(env, s, t, i);
    }
    forall i | 0 <= i < n ensures s[..n][i].tx == t[..n][i].tx {
      assert s[i].(votes := []).tx == t[i].(votes := []).tx;
    }
    SameTransactionsSameLedger(EMPTY, s[..n], t[..n]);
  }

  /** A voter that counts for an accepted block has signed it. */
  lemma VoterSigned(env: Env, l: Ledger, b: Block, pk: string)
    requires ValidVotes(env, l, b) && pk in VoteOrigins(b.votes)
    ensures Signed(env, pk, b)
  {
    var i :| 0 <= i < |b.votes| && VoteOrigins(b.votes)[i] == pk;
    assert b.votes[i] in b.votes;
  }

  /**
   Accountable agreement: where two chains from the same genesis first differ, a peer with stake in the common
   state has signed both blocks; below, they agree on everything but votes.
   */
  lemma AccountableAgreement(env: Env, s: seq<Block>, t: seq<Block>, n: nat)
    requires NoCollisions(env, s, t)
    requires FromGenesis(env, s) && FromGenesis(env, t) && s[0].(votes := []) == t[0].(votes := [])
    requires n < |s| && n < |t| && s[n].hash != t[n].hash
    requires forall i :: 0 <= i < n ==> s[i].hash == t[i].hash
    ensures DoubleSigned(env, LedgerAt(EMPTY, s[..n]), s[n], t[n])
    ensures LedgerAt(EMPTY, s[..n]) == LedgerAt(EMPTY, t[..n])
    ensures forall i :: 0 <= i < n ==> s[i].(votes := []) == t[i].(votes := [])
  {
    CommonHistory(env, s, t, n);
    assert s[0].(votes := []).hash == t[0].(votes := []).hash;
    assert Acceptable(env, EMPTY, s[..n], s[n]) && Acceptable(env, EMPTY, t[..n], t[n]);
    FromGenesisPrefix(env, s, n);
    CertifiedSound(env, s[..n]);
    var l := LedgerAt(EMPTY, s[..n]);
    QuorumsIntersect(l.peers, l.weight, VoteOrigins(s[n].votes), VoteOrigins(t[n].votes));
    var pk :| pk in VoteOrigins(s[n].votes) && pk in VoteOrigins(t[n].votes) && pk in l.peers && l.peers[pk].stake > 0;
    VoterSigned(env, l, s[n], pk);
    VoterSigned(env, l, t[n], pk);
  }

  /** Hence, while no staked peer signs two blocks of one height, all nodes hold the same chain as far as they got. */
  lemma {:induction false} Agree(env: Env, s: seq<Block>, t: seq<Block>, n: nat)
    requires NoCollisions(env, s, t)
    requires FromGenesis(env, s) && FromGenesis(env, t) && s[0].(votes := []) == t[0].(votes := [])
    requires n <= |s| && n <= |t|
    requires forall i :: 1 <= i < n && s[i].hash != t[i].hash ==>
      !DoubleSigned(env, LedgerAt(EMPTY, s[..i]), s[i], t[i])
    ensures LedgerAt(EMPTY, s[..n]) == LedgerAt(EMPTY, t[..n])
    ensures forall i :: 0 <= i < n ==> s[i].(votes := []) == t[i].(votes := [])
  {
    hide FromGenesis, DoubleSigned, LedgerAt, NoCollisions;
    if n > 0 {
      Agree(env, s, t, n - 1);
      forall i | 0 <= i < n - 1 ensures s[i].hash == t[i].hash {
        assert s[i].(votes := []).hash == t[i].(votes := []).hash;
      }
      assert s[0].hash == s[0].(votes := []).hash == t[0].(votes := []).hash == t[0].hash;
      if s[n - 1].hash != t[n - 1].hash {
        AccountableAgreement(env, s, t, n - 1);
        assert false;
      }
      CommonHistory(env, s, t, n);
    }
  }

  /** The chains part at height n + 1, and a peer with stake at that point signed both blocks. */
  ghost predicate Fork(env: Env, s: seq<Block>, t: seq<Block>, n: nat) {
    && n < |s| && n < |t| && s[n].hash != t[n].hash
    && LedgerAt(EMPTY, s[..n]) == LedgerAt(EMPTY, t[..n])
    && (forall i :: 0 <= i < n ==> s[i].(votes := []) == t[i].(votes := []))
    && DoubleSigned(env, LedgerAt(EMPTY, s[..n]), s[n], t[n])
  }

  lemma {:induction false} FirstDifference(s: seq<Block>, t: seq<Block>, m: nat) returns (n: nat)
    requires m <= |s| && m <= |t|
    ensures n <= m && (forall i :: 0 <= i < n ==> s[i].hash == t[i].hash) && (n < m ==> s[n].hash != t[n].hash)
  {
    if m == 0 {
      n := 0;
    } else {
      n := FirstDifference(s, t, m - 1);
      if n == m - 1 && s[n].hash == t[n].hash {
        n := m;
      }
    }
  }

  /**
   Two nodes that started from the same genesis block either fork at the double signature of a staked peer, or agree
   on all blocks both have; two nodes of the same height then hold the same ledger, field by field.
   */
  lemma NodesAgreeOrFork(a: Blockchain, b: Blockchain)
    requires a.Valid() && b.Valid() && a.env == b.env && a.base == EMPTY == b.base
    requires NoCollisions(a.env, a.stored, b.stored) && a.stored != [] && b.stored != []
    requires KeysOk(a.stored[0].tx) && a.stored[0].(votes := []) == b.stored[0].(votes := [])
    ensures
      || (exists n :: Fork(a.env, a.stored, b.stored, n))
      || ((forall i :: 0 <= i < |a.stored| && i < |b.stored| ==>
             a.stored[i].(votes := []) == b.stored[i].(votes := []))
          && (a.height == b.height ==> a.LedgerView() == b.LedgerView()))
  {
    hide Blockchain.Valid, LedgerAt, DoubleSigned, NoCollisions, Numbered, Certified, KeysOk, Blockchain.LedgerView;
    NodeFromGenesis(a);
    SameTransactions(a.stored[0], b.stored[0]);
    NodeFromGenesis(b);
    var s, t := a.stored, b.stored;
    var m := if |s| < |t| then |s| else |t|;
    var n := FirstDifference(s, t, m);
    if n < m {
      AccountableAgreement(a.env, s, t, n);
      assert Fork(a.env, s, t, n);
    } else {
      CommonHistory(a.env, s, t, m);
      assert s[..|s|] == s && t[..|t|] == t;
    }
  }

  lemma SameTransactions(b: Block, c: Block)
    requires b.(votes := []) == c.(votes := [])
    ensures b.tx == c.tx
  {
    assert b.(votes := []).tx == c.(votes := []).tx;
  }

  lemma NodeFromGenesis(b: Blockchain)
    requires b.Valid() && b.base == EMPTY && b.stored != [] && KeysOk(b.stored[0].tx)
    ensures FromGenesis(b.env, b.stored) && b.height == |b.stored| && b.LedgerView() == LedgerAt(EMPTY, b.stored)
  {
  }
}
