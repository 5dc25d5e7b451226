/** The check every node makes of transactions and blocks before it accepts them. */
module Validations {
  import opened Text
  import opened Types
  import opened Weights
  import opened Ledgers

  /** The text a sender signs for a given height. */
  function TxText(env: Env, height: int, commands: seq<Command>): string {
    IntText(height) + env.jsonCommands(commands)
  }

  /** No decision is ever recorded as taken, so only the height of a decision counts. */
  predicate CommandAllowed(height: int, origin: string, c: Command) {
    match c
    case AddPeer(_, _, _, _) => true
    case ModifyStake(_, _, _, _) => true
    case Data(_, _, _) => true
    case RemovePeer(_, pk) => origin == pk
    case Decision(_, _, h, _) => h >= height
  }

  predicate ValidTx(env: Env, height: int, tx: Tx) {
    && TxOk(tx)
    && height > 0
    && env.verify(tx.origin, tx.sig, TxText(env, height, tx.commands))
    && (forall i :: 0 <= i < |tx.commands| ==> CommandAllowed(height, tx.origin, tx.commands[i]))
  }

  function TxOrigins(txs: seq<Tx>): (r: seq<string>)
    ensures |r| == |txs|
  {
    seq(|txs|, i requires 0 <= i < |txs| => txs[i].origin)
  }

  function VoteOrigins(votes: seq<Vote>): (r: seq<string>)
    ensures |r| == |votes|
  {
    seq(|votes|, i requires 0 <= i < |votes| => votes[i].origin)
  }

  /** The block without its votes: what a node checks before it signs a proposal. */
  predicate ValidContent(env: Env, b: Block) {
    && b.tx != []
    && HashOk(env, b)
    && Distinct(TxOrigins(b.tx))
    && (forall i :: 0 <= i < |b.tx| ==> ValidTx(env, b.height, b.tx[i]))
  }

  predicate VotesVerify(env: Env, b: Block) {
    forall i :: 0 <= i < |b.votes| ==> env.verify(b.votes[i].origin, b.votes[i].sig, b.hash)
  }

  predicate ValidVotes(env: Env, l: Ledger, b: Block) {
    Distinct(VoteOrigins(b.votes)) && VotesVerify(env, b) && QuorumOf(l.peers, l.weight, VoteOrigins(b.votes))
  }

  lemma ValidContentKeys(env: Env, b: Block)
    requires ValidContent(env, b)
    ensures KeysOk(b.tx)
  {
    forall i | 0 <= i < |b.tx| ensures TxOk(b.tx[i]) {
      assert ValidTx(env, b.height, b.tx[i]);
    }
  }

  /** hasQuorumWeighted, as the loop over the given origins. */
  method HasQuorumWeighted(peers: map<string, Peer>, weight: int, origins: seq<string>) returns (ok: bool)
    ensures ok <==> QuorumOf(peers, weight, origins)
  {
    var w := 0;
    for i := 0 to |origins|
      invariant w == ListWeight(peers, origins[..i])
    {
      assert origins[..i + 1][..i] == origins[..i];
      w := w + Stake(peers, origins[i]);
    }
    assert origins[..|origins|] == origins;
    return 2 * w > weight;
  }

  /** The block check, in the source's order and with its early exits. */
  method ValidateBlock(env: Env, l: Ledger, b: Block, doVoteValidation: bool) returns (ok: bool)
    ensures ok <==> ValidContent(env, b) && (doVoteValidation ==> ValidVotes(env, l, b))
  {
    if |b.tx| == 0 || BlockHash(env, b.version, b.previousHash, b.tx, b.height) != b.hash {
      return false;
    }
    var origins: seq<string> := [];
    for i := 0 to |b.tx|
      invariant origins == TxOrigins(b.tx)[..i] && Distinct(origins)
      invariant forall j :: 0 <= j < i ==> ValidTx(env, b.height, b.tx[j])
    {
      if b.tx[i].origin in origins {
        ghost var j :| 0 <= j < i && origins[j] == b.tx[i].origin;
        assert TxOrigins(b.tx)[j] == TxOrigins(b.tx)[i];
        return false;
      }
      origins := origins + [b.tx[i].origin];
      if !ValidTx(env, b.height, b.tx[i]) {
        return false;
      }
    }
    assert TxOrigins(b.tx)[..|b.tx|] == TxOrigins(b.tx);
    if doVoteValidation {
      origins := [];
      for i := 0 to |b.votes|
        invariant origins == VoteOrigins(b.votes)[..i] && Distinct(origins)
        invariant forall j :: 0 <= j < i ==> env.verify(b.votes[j].origin, b.votes[j].sig, b.hash)
      {
        if b.votes[i].origin in origins {
          ghost var j :| 0 <= j < i && origins[j] == b.votes[i].origin;
          assert VoteOrigins(b.votes)[j] == VoteOrigins(b.votes)[i];
          return false;
        }
        origins := origins + [b.votes[i].origin];
        if !env.verify(b.votes[i].origin, b.votes[i].sig, b.hash) {
          return false;
        }
      }
      assert VoteOrigins(b.votes)[..|b.votes|] == VoteOrigins(b.votes);
      ok := HasQuorumWeighted(l.peers, l.weight, origins);
      return;
    }
    return true;
  }
}
