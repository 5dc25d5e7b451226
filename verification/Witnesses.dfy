/**
 Concrete chains: the hypotheses of the agreement and catch-up theorems can be met together, by nodes of the round
 machine, and what they say about forks and blocked blocks does occur.
 */
module Witnesses {
  import opened Text
  import opened Types
  import opened Weights
  import opened Ledgers
  import opened Validations
  import opened Chains
  import opened Ranges
  import opened Blockchains
  import opened Agreement
  import opened Sync
  import RoundMachine = Rounds

  function Repeat(c: char, n: nat): (s: string)
    ensures |s| == n && forall i :: 0 <= i < n ==> s[i] == c
  {
    seq(n, _ => c)
  }

  const A := Repeat('A', 43)
  const B := Repeat('B', 43)
  const C := Repeat('C', 43)
  const SIG := Repeat('s', 86)
  const ZERO := Repeat('0', 43)
  const ONE := Repeat('1', 43)
  const TWO := Repeat('2', 43)

  const GENESIS_TX := Tx("genesis", A, [AddPeer(1, "a", "a", A), AddPeer(2, "b", "b", B), AddPeer(3, "c", "c", C)], SIG)
  const GENESIS := Block(7, ZERO, ZERO, [GENESIS_TX], 1, [])

  /** A vote for taking more stake from C than it has, cast by A and B. */
  const VOTE := ModifyStake(1, C, "vote", -5)
  const BOTH_VOTE := [Tx("x", A, [VOTE], SIG), Tx("x", B, [VOTE], SIG)]
  const ONE_VOTES := [Tx("x", A, [VOTE], SIG)]

  const FIRST_TEXT := IntText(7) + "," + ZERO + "," + "1" + "," + IntText(2)

  /** An environment with hashes of one length that tells these blocks apart. */
  const ENV := Env(
    text => if text == FIRST_TEXT then ONE else TWO,
    (pk, sig, text) => true,
    (pk, text) => SIG,
    txs => if txs == BOTH_VOTE then "1" else "2",
    commands => "")

  const VOTES := [Vote(A, SIG), Vote(B, SIG)]
  const FIRST := Block(7, ZERO, ONE, BOTH_VOTE, 2, VOTES)
  const SECOND := Block(7, ZERO, TWO, ONE_VOTES, 2, VOTES)

  lemma KeysDiffer()
    ensures A != B && B != C && A != C && BOTH_VOTE != ONE_VOTES && ONE != TWO
    ensures IsKey(A) && IsKey(B) && IsKey(C) && IsName(SIG, 86, 86)
  {
    assert A[0] == 'A' && B[0] == 'B' && C[0] == 'C' && ONE[0] == '1' && TWO[0] == '2';
    assert |BOTH_VOTE| != |ONE_VOTES|;
  }

  lemma Hashes()
    ensures HashOk(ENV, FIRST) && HashOk(ENV, SECOND) && NoCollision(ENV, FIRST, SECOND)
    ensures forall b: Block :: b.version == 7 && b.previousHash == ZERO && b.height == 2 && b.tx != BOTH_VOTE ==>
      NoCollision(ENV, FIRST, b)
  {
    hide IntText;
    KeysDiffer();
    forall b: Block | b.version == 7 && b.previousHash == ZERO && b.height == 2 && b.tx != BOTH_VOTE
      ensures TextOf(ENV, b) != FIRST_TEXT && TextOf(ENV, FIRST) == FIRST_TEXT
    {
      var prefix := IntText(7) + "," + ZERO + ",";
      assert TextOf(ENV, b) == prefix + "2" + "," + IntText(2) && FIRST_TEXT == prefix + "1" + "," + IntText(2);
      assert TextOf(ENV, b)[|prefix|] == '2' && FIRST_TEXT[|prefix|] == '1';
    }
    assert TextOf(ENV, SECOND) != FIRST_TEXT;
  }

  lemma TxsValid(tx: Tx)
    requires tx in BOTH_VOTE
    ensures ValidTx(ENV, 2, tx)
  {
    KeysDiffer();
  }

  lemma ContentValid()
    ensures ValidContent(ENV, FIRST) && ValidContent(ENV, SECOND)
  {
    hide ValidTx, HashOk;
    KeysDiffer();
    Hashes();
    TxsValid(BOTH_VOTE[0]);
    TxsValid(BOTH_VOTE[1]);
  }

  const PEERS := map[A := Peer(A, "a", "a", 1), B := Peer(B, "b", "b", 1), C := Peer(C, "c", "c", 1)]

  lemma GenesisKeysOk()
    ensures KeysOk([GENESIS_TX])
  {
    KeysDiffer();
  }

  lemma GenesisOps()
    ensures Ops([GENESIS_TX]) == [Op(A, GENESIS_TX.commands[0]), Op(A, GENESIS_TX.commands[1]),
                                  Op(A, GENESIS_TX.commands[2])]
  {
    assert [GENESIS_TX][..0] == [] && Ops([]) == [];
    assert Ops([GENESIS_TX]) == [] + OpsOf(A, GENESIS_TX.commands);
  }

  lemma ApplyThree(l: Ledger, x: Op, y: Op, z: Op)
    ensures ApplyAll(l, [x, y, z]) == Apply(Apply(Apply(l, x), y), z)
  {
    hide Apply;
    assert [x, y, z][..2] == [x, y] && [x, y][..1] == [x] && [x][..0] == [];
    assert ApplyAll(l, [x]) == Apply(l, x);
    assert ApplyAll(l, [x, y]) == Apply(Apply(l, x), y);
  }

  lemma AddsPeer(l: Ledger, n: int, a: string, pk: string)
    requires pk !in l.peers
    ensures var m := Apply(l, Op(A, AddPeer(n, a, a, pk)));
      m.peers == l.peers[pk := Peer(pk, a, a, 1)] && m.weight == l.weight + 1 && m.tallies == l.tallies
  {
  }

  lemma GenesisLedger()
    ensures var l := LedgerAt(EMPTY, [GENESIS]); l.peers == PEERS && l.weight == 3 && l.tallies == map[]
  {
    hide Apply, ApplyAll, Ops, Repeat;
    KeysDiffer();
    GenesisOps();
    var x, y, z := GENESIS_TX.commands[0], GENESIS_TX.commands[1], GENESIS_TX.commands[2];
    var l := Apply(EMPTY, Op(A, x));
    AddsPeer(EMPTY, 1, "a", A);
    AddsPeer(l, 2, "b", B);
    AddsPeer(Apply(l, Op(A, y)), 3, "c", C);
    ApplyThree(EMPTY, Op(A, x), Op(A, y), Op(A, z));
    assert [GENESIS][..0] == [];
  }

  lemma GenesisUncut()
    ensures !HasCut(EMPTY, [GENESIS_TX])
  {
  }

  lemma WeightOfTwo(x: string, y: string)
    requires x in PEERS && y in PEERS
    ensures ListWeight(PEERS, [x]) == 1 && ListWeight(PEERS, [x, y]) == 2
  {
    hide Repeat;
    assert [x, y][..1] == [x] && [x][..0] == [];
    assert Stake(PEERS, x) == 1 && Stake(PEERS, y) == 1;
  }

  lemma VotersSuffice(b: Block)
    requires b.votes == VOTES
    ensures ValidVotes(ENV, LedgerAt(EMPTY, [GENESIS]), b)
  {
    hide LedgerAt, Repeat;
    KeysDiffer();
    GenesisLedger();
    WeightOfTwo(A, B);
    assert VoteOrigins(b.votes) == [A, B];
  }

  lemma BothAcceptable()
    ensures Acceptable(ENV, EMPTY, [GENESIS], FIRST) && Acceptable(ENV, EMPTY, [GENESIS], SECOND)
  {
    hide ValidContent, ValidVotes;
    ContentValid();
    VotersSuffice(FIRST);
    VotersSuffice(SECOND);
  }

  /** The second vote decides and is cut: C has stake one. */
  lemma FirstIsCut()
    ensures HasCut(LedgerAt(EMPTY, [GENESIS]), BOTH_VOTE)
  {
    hide LedgerAt, TallyKey, Apply, ApplyAll, Ops, OpsOf, Cuts, Repeat;
    var l := LedgerAt(EMPTY, [GENESIS]);
    BeforeSecond(l);
    GenesisLedger();
    SecondCuts(l);
    assert CutAt(l, BOTH_VOTE, 1, 0);
  }

  lemma BeforeSecond(l: Ledger)
    ensures ApplyAll(ApplyAll(l, Ops(BOTH_VOTE[..1])), OpsOf(BOTH_VOTE[1].origin, BOTH_VOTE[1].commands[..0])) ==
            Apply(l, Op(A, VOTE))
  {
    hide Apply, Repeat;
    var op := Op(A, VOTE);
    assert BOTH_VOTE[..1] == [BOTH_VOTE[0]] && [BOTH_VOTE[0]][..0] == [];
    assert Ops(BOTH_VOTE[..1]) == [] + OpsOf(A, [VOTE]) == [op] && [op][..0] == [];
  }

  lemma SecondCuts(l: Ledger)
    requires l.peers == PEERS && l.weight == 3 && l.tallies == map[]
    ensures Cuts(Apply(l, Op(A, VOTE)), Op(B, VOTE))
  {
    hide TallyKey, Apply, ListWeight, Repeat;
    KeysDiffer();
    WeightOfTwo(A, B);
    var key := TallyKey(C, "vote", -5);
    VoteCollected(l, A, VOTE, key, [A]);
    var m := Apply(l, Op(A, VOTE));
    assert Tally(m, key) + [B] == [A, B];
  }

  /**
   Whatever its limits, a peer with this chain hands out a block that no node accepts: catch-up from it stays at the
   genesis block.
   */
  lemma BlockedBlocksExist(max: nat, query: nat, sync: nat)
    requires max >= 1 && query >= 1
    ensures var r := Remote(EMPTY, [GENESIS, FIRST], max, query, sync);
      RemoteOk(ENV, r) && CopiesTold(ENV, r) && Fits(r) && Altered(r, 1) && Blocked(EMPTY, r, 1)
      && forall n :: |Rounds(ENV, EMPTY, r, n)| == 1
  {
    hide LedgerAt, HasCut, Acceptable, HashOk, NoCollision, WrittenTxs, Repeat;
    var s := [GENESIS, FIRST];
    var r := Remote(EMPTY, s, max, query, sync);
    assert s[..1] == [GENESIS] && s[..0] == [];
    BothAcceptable();
    FirstIsCut();
    GenesisKeysOk();
    GenesisUncut();
    NothingBefore();
    AlteredCopy(r, 0);
    AlteredCopy(r, 1);
    Hashes();
    assert NoCollision(ENV, s[1], Cached(EMPTY, s, 1));
    SameCollidesNot(ENV, GENESIS);
    assert RoundStart(sync + 1, 1) == 2;
    assert Blocked(EMPTY, r, 1);
    forall n: nat ensures |Rounds(ENV, EMPTY, r, n)| == 1 {
      SyncOutcome(ENV, EMPTY, r, 2, n);
      SyncOutcome(ENV, EMPTY, r, 1, n);
      assert !NoneBlocked(EMPTY, r, 2);
    }
  }

  lemma NothingBefore()
    ensures LedgerAt(EMPTY, []) == EMPTY
  {
  }

  lemma SameCollidesNot(env: Env, b: Block)
    ensures NoCollision(env, b, b)
  {
  }

  // ---------- a chain of any length ----------

  /** One peer, which adds itself over and over: every block but the first leaves the ledger as it is. */
  const AGAIN := Tx("again", A, [AddPeer(1, "a", "a", A)], SIG)
  const ONE_HASH := Env(text => ZERO, (pk, sig, text) => true, (pk, text) => SIG, txs => "", commands => "")

  function LongChain(n: nat): (s: seq<Block>)
    ensures |s| == n
  {
    seq(n, i requires 0 <= i < n => Block(7, ZERO, ZERO, [AGAIN], i + 1, [Vote(A, SIG)]))
  }

  const ALONE := Apply(EMPTY, Op(A, AddPeer(1, "a", "a", A)))

  lemma AgainOps()
    ensures Ops([AGAIN]) == [Op(A, AddPeer(1, "a", "a", A))]
  {
    assert [AGAIN][..0] == [] && Ops([]) == [];
    assert Ops([AGAIN]) == [] + OpsOf(A, AGAIN.commands);
  }

  lemma AgainChangesNothing(l: Ledger)
    requires l == EMPTY || l == ALONE
    ensures ApplyAll(l, Ops([AGAIN])) == ALONE && !HasCut(l, [AGAIN])
    ensures ALONE.peers == map[A := Peer(A, "a", "a", 1)] && ALONE.weight == 1
  {
    hide Repeat, Ops;
    AgainOps();
    var op := Op(A, AddPeer(1, "a", "a", A));
    assert [op][..0] == [];
    assert ApplyAll(l, [op]) == Apply(l, op);
  }

  lemma {:induction false} LongLedger(n: nat)
    ensures LedgerAt(EMPTY, LongChain(n)) == if n == 0 then EMPTY else ALONE
  {
    hide Apply, ApplyAll, Ops, Repeat;
    if n > 0 {
      LongLedger(n - 1);
      assert LongChain(n)[..n - 1] == LongChain(n - 1);
      AgainChangesNothing(if n == 1 then EMPTY else ALONE);
    }
  }

  lemma AgainTxValid(height: int)
    requires height >= 1
    ensures ValidTx(ONE_HASH, height, AGAIN)
  {
    KeysDiffer();
  }

  lemma AloneVotes(b: Block)
    requires b.votes == [Vote(A, SIG)]
    ensures ValidVotes(ONE_HASH, ALONE, b)
  {
    hide Repeat, Apply;
    AgainChangesNothing(EMPTY);
    var o := VoteOrigins(b.votes);
    assert o == [A] && [A][..0] == [];
    assert Stake(ALONE.peers, A) == 1;
    assert ListWeight(ALONE.peers, [A]) == ListWeight(ALONE.peers, []) + 1;
  }

  lemma AgainValid(b: Block)
    requires b.version == 7 && b.hash == ZERO && b.tx == [AGAIN] && b.height >= 1 && b.votes == [Vote(A, SIG)]
    ensures ValidContent(ONE_HASH, b) && ValidVotes(ONE_HASH, ALONE, b)
  {
    hide ValidTx, ValidVotes, Repeat, Apply;
    AgainTxValid(b.height);
    AloneVotes(b);
  }

  lemma LongCertified(n: nat, i: nat)
    requires 1 <= i < n
    ensures Acceptable(ONE_HASH, EMPTY, LongChain(n)[..i], LongChain(n)[i])
  {
    hide ValidContent, ValidVotes, LedgerAt, Repeat, Apply;
    assert LongChain(n)[..i] == LongChain(i);
    LongLedger(i);
    AgainValid(LongChain(n)[i]);
  }

  lemma LongUncut(n: nat, i: nat)
    requires i < n
    ensures !HasCut(LedgerAt(EMPTY, LongChain(n)[..i]), LongChain(n)[i].tx)
  {
    hide LedgerAt, HasCut, Apply, ApplyAll, Ops, Repeat;
    assert LongChain(n)[..i] == LongChain(i);
    LongLedger(i);
    AgainChangesNothing(if i == 0 then EMPTY else ALONE);
  }

  /**
   For all limits with sync >= query there is a chain from which no block but the first is ever fetched, although every
   node would accept each of them.
   */
  lemma OversizedSyncExists(max: nat, query: nat, sync: nat)
    requires max >= 1 && 1 <= query <= sync && query + 2 < KEY_LIMIT
    ensures var r := Remote(EMPTY, LongChain(query + 2), max, query, sync);
      && RemoteOk(ONE_HASH, r) && CopiesTold(ONE_HASH, r) && !Fits(r) && NoneBlocked(EMPTY, r, |r.s|)
      && forall n :: |Rounds(ONE_HASH, EMPTY, r, n)| == 1
  {
    hide Acceptable, HasCut, LedgerAt, NoCollision, Repeat, WrittenTxs, Rounds;
    var s := LongChain(query + 2);
    var r := Remote(EMPTY, s, max, query, sync);
    forall i | 1 <= i < |s| ensures Acceptable(ONE_HASH, EMPTY, s[..i], s[i]) {
      LongCertified(|s|, i);
    }
    forall i | 0 <= i < |s| ensures !Altered(r, i) && NoCollision(ONE_HASH, s[i], Cached(EMPTY, s, i)) {
      LongUncut(|s|, i);
      AlteredCopy(r, i);
      SameCollidesNot(ONE_HASH, s[i]);
    }
    forall i | 1 <= i < |s| ensures !Blocked(EMPTY, r, i) {
      SameStartBlocks(ONE_HASH, r, i);
    }
    forall n: nat ensures |Rounds(ONE_HASH, EMPTY, r, n)| == 1 {
      OversizedSync(ONE_HASH, EMPTY, r, n);
    }
  }

  /**
   Two nodes of the round machine that meet every hypothesis of the agreement theorem and have in fact parted: A and B
   signed both blocks.
   */
  method ForkedNodes() returns (f: RoundMachine.BlockFactory, g: RoundMachine.BlockFactory)
    ensures f.Valid() && g.Valid() && f.env == g.env == ENV && f.blockchain.base == EMPTY == g.blockchain.base
    ensures f.blockchain.stored == [GENESIS, FIRST] && g.blockchain.stored == [GENESIS, SECOND]
    ensures KeysOk(GENESIS.tx) && NoCollisions(ENV, f.blockchain.stored, g.blockchain.stored)
    ensures Fork(ENV, f.blockchain.stored, g.blockchain.stored, 1)
  {
    hide Blockchain.Valid, Blockchain.Linked, Acceptable, LedgerAt, NoCollision, DoubleSigned, Repeat, FromGenesis,
      RoundMachine.BlockFactory.Valid, RoundMachine.HashSized, Blockchain.LedgerView, KeysOk;
    BothAcceptable();
    Sizes();
    f := NodeWith(ENV, GENESIS, FIRST);
    g := NodeWith(ENV, GENESIS, SECOND);
    GenesisKeysOk();
    Hashes();
    SameCollidesNot(ENV, GENESIS);
    KeysDiffer();
    NodeFromGenesis(f.blockchain);
    NodeFromGenesis(g.blockchain);
    AccountableAgreement(ENV, f.blockchain.stored, g.blockchain.stored, 1);
  }

  lemma Sizes()
    ensures RoundMachine.HashSized(ENV) && GENESIS.height == 1
    ensures forall b :: b in [FIRST, SECOND] ==> |b.hash| == 43 == |b.previousHash|
    ensures FIRST.hash != SECOND.hash && GENESIS.tx == [GENESIS_TX]
  {
    KeysDiffer();
  }

  method NodeWith(env: Env, genesis: Block, b: Block) returns (f: RoundMachine.BlockFactory)
    requires genesis.height == 1 && Acceptable(env, EMPTY, [genesis], b)
    requires RoundMachine.HashSized(env) && |b.hash| == 43 == |b.previousHash|
    ensures fresh(f) && fresh(f.blockchain)
    ensures f.Valid() && f.env == env && f.blockchain.base == EMPTY && f.blockchain.stored == [genesis, b]
    ensures f.blockchain.Valid() && f.blockchain.env == env
  {
    hide Blockchain.Linked, Certified, Acceptable, LedgerAt, RoundMachine.BlockFactory.Valid,
      RoundMachine.BlockFactory.Ready, RoundMachine.HashSized, Blockchain.LedgerView, Credits, Ops;
    var chain := new Blockchain(env, A, 10, 10, []);
    EmptyView(chain);
    chain.Reset(genesis);
    var ok := chain.Add(b);
    f := new RoundMachine.BlockFactory(env, A, chain);
  }

  lemma EmptyView(b: Blockchain)
    requires b.View() == Chain(0, [], None, EMPTY, [])
    ensures Cleared(b.LedgerView()) == EMPTY
  {
  }
}
