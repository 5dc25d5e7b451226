/** What an accepted block is known to contain, and who may do what: written out without the check's own vocabulary. */
module Permissions {
  import opened Text
  import opened Types
  import opened Weights
  import opened Ledgers
  import opened Validations
  import opened Chains
  import opened Blockchains
  import opened Validators
  import opened Rounds

  /** Well formed by the schema, signed for this height, and its removals and decisions are allowed. */
  ghost predicate SignedFor(env: Env, height: int, tx: Tx) {
    && height > 0 && TxOk(tx)
    && env.verify(tx.origin, tx.sig, IntText(height) + env.jsonCommands(tx.commands))
    && (forall c :: c in tx.commands && c.RemovePeer? ==> c.publicKey == tx.origin)
    && (forall c :: c in tx.commands && c.Decision? ==> height <= c.h)
  }

  /** A transaction passes exactly if it is that; of other commands anybody may send any. */
  lemma TxAccepted(env: Env, height: int, tx: Tx)
    ensures ValidTx(env, height, tx) <==> SignedFor(env, height, tx)
  {
    hide TxOk;
    if SignedFor(env, height, tx) {
      forall i | 0 <= i < |tx.commands| ensures CommandAllowed(height, tx.origin, tx.commands[i]) {
        assert tx.commands[i] in tx.commands;
      }
    }
    if ValidTx(env, height, tx) {
      forall c | c in tx.commands ensures CommandAllowed(height, tx.origin, c) {
      }
    }
  }

  /** The stake of distinct voters, summed up one by one. */
  ghost predicate HoldMajority(l: Ledger, voters: seq<string>) {
    2 * SetWeight(l.peers, Elements(voters)) > l.weight
  }

  /** What the voters and the transactions of a block must be on top of the chain s. */
  ghost predicate Sealed(env: Env, l: Ledger, s: seq<Block>, b: Block) {
    && s != [] && b.height == |s| + 1 && b.previousHash == s[|s| - 1].hash && b.tx != []
    && b.hash == env.hash(IntText(b.version) + "," + b.previousHash + "," + env.jsonTx(b.tx) + "," + IntText(b.height))
    && (forall tx :: tx in b.tx ==> SignedFor(env, |s| + 1, tx))
    && (forall i, j :: 0 <= i < j < |b.tx| ==> b.tx[i].origin != b.tx[j].origin)
    && (forall v :: v in b.votes ==> env.verify(v.origin, v.sig, b.hash))
    && (forall i, j :: 0 <= i < j < |b.votes| ==> b.votes[i].origin != b.votes[j].origin)
    && HoldMajority(l, seq(|b.votes|, i requires 0 <= i < |b.votes| => b.votes[i].origin))
  }

  /** `add` accepts exactly these blocks. */
  lemma AcceptedBlocks(env: Env, base: Ledger, s: seq<Block>, b: Block)
    ensures Acceptable(env, base, s, b) <==> Sealed(env, LedgerAt(base, s), s, b)
  {
    hide ValidTx, SignedFor, LedgerAt, IntText, ListWeight, SetWeight;
    var l := LedgerAt(base, s);
    ContentIs(env, |s| + 1, b);
    VotesAre(env, l, b);
  }

  lemma ContentIs(env: Env, height: int, b: Block)
    ensures b.height == height ==> (ValidContent(env, b) <==>
      && b.tx != []
      && b.hash == env.hash(IntText(b.version) + "," + b.previousHash + "," + env.jsonTx(b.tx) + "," + IntText(b.height))
      && (forall tx :: tx in b.tx ==> SignedFor(env, height, tx))
      && (forall i, j :: 0 <= i < j < |b.tx| ==> b.tx[i].origin != b.tx[j].origin))
  {
    hide ValidTx, SignedFor, IntText;
    forall tx ensures ValidTx(env, height, tx) <==> SignedFor(env, height, tx) {
      TxAccepted(env, height, tx);
    }
    var o := TxOrigins(b.tx);
    assert forall i | 0 <= i < |b.tx| :: o[i] == b.tx[i].origin && b.tx[i] in b.tx;
    assert Distinct(o) <==> forall i, j :: 0 <= i < j < |b.tx| ==> b.tx[i].origin != b.tx[j].origin;
  }

  lemma VotesAre(env: Env, l: Ledger, b: Block)
    ensures ValidVotes(env, l, b) <==>
      && (forall v :: v in b.votes ==> env.verify(v.origin, v.sig, b.hash))
      && (forall i, j :: 0 <= i < j < |b.votes| ==> b.votes[i].origin != b.votes[j].origin)
      && HoldMajority(l, seq(|b.votes|, i requires 0 <= i < |b.votes| => b.votes[i].origin))
  {
    hide ListWeight, SetWeight;
    var o := VoteOrigins(b.votes);
    assert forall i | 0 <= i < |b.votes| :: o[i] == b.votes[i].origin && b.votes[i] in b.votes;
    assert Distinct(o) <==> forall i, j :: 0 <= i < j < |b.votes| ==> b.votes[i].origin != b.votes[j].origin;
    assert o == seq(|b.votes|, i requires 0 <= i < |b.votes| => b.votes[i].origin);
    if Distinct(o) {
      DistinctListWeight(l.peers, o);
    }
  }

  /** Every transaction above the first block was signed by its origin, for the height it is at. */
  lemma EveryTransactionIsSigned(env: Env, base: Ledger, s: seq<Block>, i: nat, tx: Tx)
    requires Certified(env, base, s) && 1 <= i < |s| && tx in s[i].tx
    ensures env.verify(tx.origin, tx.sig, IntText(i + 1) + env.jsonCommands(tx.commands))
    ensures forall c :: c in tx.commands && c.RemovePeer? ==> c.publicKey == tx.origin
  {
    hide Acceptable;
    assert Acceptable(env, base, s[..i], s[i]);
    AcceptedBlocks(env, base, s[..i], s[i]);
  }

  // ---------- who can remove a peer ----------

  lemma {:induction false} OpsMember(txs: seq<Tx>, op: Op)
    requires op in Ops(txs)
    ensures exists tx :: tx in txs && tx.origin == op.origin && op.command in tx.commands
  {
    var n := |txs| - 1;
    var front := txs[..n];
    if op in Ops(front) {
      OpsMember(front, op);
      var tx :| tx in front && tx.origin == op.origin && op.command in tx.commands;
      assert tx in txs;
    } else {
      assert txs[n] in txs;
    }
  }

  /** A peer only goes by its removal. */
  lemma {:induction false} RemovedBy(l: Ledger, ops: seq<Op>, pk: string) returns (op: Op)
    requires pk in l.peers && pk !in ApplyAll(l, ops).peers
    ensures op in ops && op.command.RemovePeer? && op.command.publicKey == pk
  {
    hide QuorumOf, TallyKey, IntText;
    var front, last := ops[..|ops| - 1], ops[|ops| - 1];
    if pk in ApplyAll(l, front).peers {
      op := last;
    } else {
      op := RemovedBy(l, front, pk);
    }
  }

  /**
   A peer that is there before a block and not after it has left by itself: the block holds its own transaction with its
   removal, signed by it for this height.
   */
  lemma OnlyItselfLeaves(env: Env, base: Ledger, s: seq<Block>, i: nat, pk: string)
    requires Certified(env, base, s) && 1 <= i < |s|
    requires pk in LedgerAt(base, s[..i]).peers && pk !in LedgerAt(base, s[..i + 1]).peers
    ensures exists tx, c :: tx in s[i].tx && tx.origin == pk && c in tx.commands && c.RemovePeer? && c.publicKey == pk
                            && env.verify(pk, tx.sig, IntText(i + 1) + env.jsonCommands(tx.commands))
  {
    hide Acceptable, Certified, ApplyAll, Ops, LedgerAt, IntText;
    assert s[..i + 1] == s[..i] + [s[i]];
    LedgerAtExtends(base, s[..i], s[i]);
    var op := RemovedBy(LedgerAt(base, s[..i]), Ops(s[i].tx), pk);
    OpsMember(s[i].tx, op);
    var tx :| tx in s[i].tx && tx.origin == op.origin && op.command in tx.commands;
    EveryTransactionIsSigned(env, base, s, i, tx);
  }

  /** The other direction: a node's own request to leave is taken in and waits in line, at any height. */
  method Leave(f: BlockFactory, ident: string, view: View) returns (ok: bool)
    requires f.Valid() && ViewOk(view) && SignaturesVerify(f.env)
    requires IsKey(f.publicKey) && IsName(ident, 1, 32)
    requires forall text :: IsName(f.env.sign(f.publicKey, text), 86, 86)
    modifies f
    ensures ok && f.Valid()
    ensures f.accepted == old(f.accepted) + [Record(ident, [RemovePeer(1, f.publicKey)])]
  {
    hide Blockchain.Valid, Blockchain.Linked, PoolOk, CandidateOk, IssuedOk, OwnOk, Due, CommittedOk, HashSized, ValidTx;
    var commands := [RemovePeer(1, f.publicKey)];
    LeavingIsValid(f.env, f.publicKey, f.Height(), ident);
    ok := f.Stack(commands, ident, ident, view);
  }

  lemma LeavingIsValid(env: Env, pk: string, height: int, ident: string)
    requires height > 0 && SignaturesVerify(env) && IsKey(pk) && IsName(ident, 1, 32)
    requires forall text :: IsName(env.sign(pk, text), 86, 86)
    ensures ValidTx(env, height, MakeTx(env, pk, height, Record(ident, [RemovePeer(1, pk)])))
  {
    TxAccepted(env, height, MakeTx(env, pk, height, Record(ident, [RemovePeer(1, pk)])));
  }
}
