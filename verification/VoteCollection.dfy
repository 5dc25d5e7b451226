/** A whole round: from the validator's proposal over the votes to the block on its chain and on everybody else's. */
module VoteCollection {
  import opened Text
  import opened Types
  import opened Weights
  import opened Ledgers
  import opened Validations
  import opened Chains
  import opened Blockchains
  import opened Validators
  import opened Proposals
  import opened Agreement
  import opened Rounds
  import OrderedMaps

  predicate AreVotes(ms: seq<Message>) {
    forall i :: 0 <= i < |ms| ==> ms[i].SignBlock?
  }

  predicate VotesSigned(env: Env, ms: seq<Message>)
    requires AreVotes(ms)
  {
    forall i :: 0 <= i < |ms| ==> env.verify(ms[i].origin, ms[i].sig, ms[i].hash)
  }

  /** In every one of n views this node is the validator for the block after the chain. */
  predicate ViewsChoose(views: seq<View>, s: seq<Block>, pk: string, n: nat) {
    |views| == n && forall i :: 0 <= i < n ==> ViewOk(views[i]) && Chooses(views[i], s, pk)
  }

  /** The vote is for this block and the first of its origin. */
  predicate IsFirst(b: Block, m: Message)
    requires m.SignBlock?
  {
    m.hash == b.hash && m.origin !in VoteOrigins(b.votes)
  }

  function CountedVote(b: Block, m: Message): Block
    requires m.SignBlock?
  {
    if IsFirst(b, m) then WithVote(b, Vote(m.origin, m.sig)) else b
  }

  /** The candidate with the first vote of every origin. */
  function Collected(b: Block, ms: seq<Message>): Block
    requires AreVotes(ms)
  {
    if ms == [] then b else CountedVote(Collected(b, ms[..|ms| - 1]), ms[|ms| - 1])
  }

  /** With this vote the distinct origins hold quorum. */
  predicate Decides(l: Ledger, b: Block, m: Message)
    requires m.SignBlock?
  {
    IsFirst(b, m) && 2 * ListWeight(l.peers, VoteOrigins(b.votes) + [m.origin]) > l.weight
  }

  /** Collecting keeps the candidate valid, its origins distinct and its votes verifying. */
  lemma {:induction false} CollectedOk(env: Env, b: Block, ms: seq<Message>)
    requires AreVotes(ms) && VotesSigned(env, ms)
    requires ValidContent(env, b) && Distinct(VoteOrigins(b.votes)) && VotesVerify(env, b)
    ensures var c := Collected(b, ms);
      c == b.(votes := c.votes) && ValidContent(env, c) && Distinct(VoteOrigins(c.votes)) && VotesVerify(env, c)
  {
    if ms != [] {
      CollectedOk(env, b, ms[..|ms| - 1]);
      CountedVoteOk(env, Collected(b, ms[..|ms| - 1]), ms[|ms| - 1]);
    }
  }

  lemma CountedVoteOk(env: Env, b: Block, m: Message)
    requires m.SignBlock? && env.verify(m.origin, m.sig, m.hash)
    requires ValidContent(env, b) && Distinct(VoteOrigins(b.votes)) && VotesVerify(env, b)
    ensures var c := CountedVote(b, m);
      c == b.(votes := c.votes) && ValidContent(env, c) && Distinct(VoteOrigins(c.votes)) && VotesVerify(env, c)
  {
    hide ValidTx, TxOrigins;
    var c := CountedVote(b, m);
    if IsFirst(b, m) {
      assert VoteOrigins(c.votes) == VoteOrigins(b.votes) + [m.origin];
    }
  }

  lemma OwnVoteOk(env: Env, b: Block, pk: string)
    requires SignaturesVerify(env) && b.votes == [Vote(pk, env.sign(pk, b.hash))]
    ensures Distinct(VoteOrigins(b.votes)) && VotesVerify(env, b)
  {
  }

  lemma OriginsSnoc(b: Block, m: Message)
    requires m.SignBlock?
    ensures VoteOrigins(WithVote(b, Vote(m.origin, m.sig)).votes) == VoteOrigins(b.votes) + [m.origin]
  {
  }

  /** One vote on the collected candidate: it is added with full validity if the vote decides, else collected. */
  lemma VoteStep(env: Env, pk: string, base: Ledger, s: seq<Block>, b: Block, m: Message)
    requires m.SignBlock? && env.verify(m.origin, m.sig, m.hash)
    requires SoundNext(env, s, b) && Distinct(VoteOrigins(b.votes)) && VotesVerify(env, b)
    ensures var o := MessageOutcome(env, pk, base, s, Some(b), m);
      var c := CountedVote(b, m);
      if Decides(LedgerAt(base, s), b, m) then
        Acceptable(env, base, s, c) && o == Outcome(s + [c], None, [ConfirmBlock(pk, c.hash, c.votes)])
      else o == Outcome(s, Some(c), [])
  {
    hide ValidContent, VotesVerify, LedgerAt, VoteOrigins, ListWeight;
    CountedVoteOk(env, b, m);
    OriginsSnoc(b, m);
  }

  /**
   The vote collector refines the batch check. After the proposal timer of a pool of senders' own transactions, over
   any sequence of vote messages whose signatures verify, the block is added at the first message at which its distinct
   origins hold quorum, and then the full check holds for it; n is that message, or all of them if none decides. Who is
   online may change from message to message, as long as this node stays the validator.
   */
  method ProposeAndCollect(f: BlockFactory, ms: seq<Message>, views: seq<View>) returns (proposal: Block, ghost n: nat)
    requires f.Valid() && f.timeoutProposeBlock && SendersOwn(f.current) && SignaturesVerify(f.env)
    requires AreVotes(ms) && VotesSigned(f.env, ms)
    requires ViewsChoose(views, f.blockchain.stored, f.publicKey, |ms|) && |f.blockchain.stored| + 2 < KEY_LIMIT
    modifies f, f.blockchain
    ensures f.Valid() && f.blockchain.base == old(f.blockchain.base)
    ensures var s := old(f.blockchain.stored);
      proposal.(votes := []) == MakeBlock(f.env, s[|s| - 1], SortBySig(OrderedMaps.Values(old(f.current))))
      && proposal.votes == [Vote(f.publicKey, f.env.sign(f.publicKey, proposal.hash))]
    ensures var s, l := old(f.blockchain.stored), LedgerAt(f.blockchain.base, old(f.blockchain.stored));
      && n <= |ms| && (forall k :: 0 <= k < n ==> !Decides(l, Collected(proposal, ms[..k]), ms[k]))
      && if n < |ms| then
           var c := Collected(proposal, ms[..n + 1]);
           && Decides(l, Collected(proposal, ms[..n]), ms[n]) && Acceptable(f.env, f.blockchain.base, s, c)
           && f.blockchain.stored == s + [c] && f.block == None
           && f.sent == old(f.sent) + [ProposeBlock(f.publicKey, proposal), ConfirmBlock(f.publicKey, c.hash, c.votes)]
         else
           && f.blockchain.stored == s && f.block == Some(Collected(proposal, ms))
           && f.sent == old(f.sent) + [ProposeBlock(f.publicKey, proposal)]
  {
    hide Blockchain.Valid, Blockchain.Linked, PoolOk, MakeTx, ViewOk, ValidTx, CandidateOk, IssuedOk, OwnOk, Due,
      CommittedOk, Chooses, TipSized, HashSized, RecordOf, Commits, InFlight, Blockchain.LedgerView, ValidContent,
      VotesVerify, VoteOrigins, Decides, LedgerAt, Acceptable, SortBySig, MakeBlock, SendersOwn, TimersOk,
      SignaturesVerify, VotesSigned, Collected;
    ghost var s := f.blockchain.stored;
    SortedPool(f);
    f.ProposeTimer();
    SortedPool(f);
    proposal := f.block.value;
    ProposalVotes(f.env, s[|s| - 1], f.arrayPoolTx, proposal, f.publicKey);
    OwnVoteOk(f.env, proposal, f.publicKey);
    n := CollectVotes(f, proposal, ms, views);
  }

  /** The collecting part: a valid candidate with verifying votes is held, and votes come in. */
  method CollectVotes(f: BlockFactory, proposal: Block, ms: seq<Message>, views: seq<View>) returns (ghost n: nat)
    requires f.Valid() && f.block == Some(proposal) && AreVotes(ms) && VotesSigned(f.env, ms)
    requires SoundNext(f.env, f.blockchain.stored, proposal)
    requires Distinct(VoteOrigins(proposal.votes)) && VotesVerify(f.env, proposal)
    requires ViewsChoose(views, f.blockchain.stored, f.publicKey, |ms|) && |f.blockchain.stored| + 2 < KEY_LIMIT
    modifies f, f.blockchain
    ensures f.Valid() && f.blockchain.base == old(f.blockchain.base)
    ensures var s, l := old(f.blockchain.stored), LedgerAt(f.blockchain.base, old(f.blockchain.stored));
      && n <= |ms| && (forall k :: 0 <= k < n ==> !Decides(l, Collected(proposal, ms[..k]), ms[k]))
      && if n < |ms| then
           var c := Collected(proposal, ms[..n + 1]);
           && Decides(l, Collected(proposal, ms[..n]), ms[n]) && Acceptable(f.env, f.blockchain.base, s, c)
           && f.blockchain.stored == s + [c] && f.block == None
           && f.sent == old(f.sent) + [ConfirmBlock(f.publicKey, c.hash, c.votes)]
         else
           f.blockchain.stored == s && f.block == Some(Collected(proposal, ms)) && f.sent == old(f.sent)
  {
    hide Blockchain.Valid, Blockchain.Linked, BlockFactory.Ready, BlockFactory.Valid, ViewOk, Chooses, ValidContent,
      VotesVerify, VoteOrigins, Decides, LedgerAt, Acceptable, CountedVote, VotesSigned, Quorate, IsFirst, Collected,
      SoundNext;
    ghost var s, base := f.blockchain.stored, f.blockchain.base;
    ghost var l := LedgerAt(base, s);
    n := 0;
    assert ms[..0] == [] && Collected(proposal, []) == proposal by {
      CollectedNone(proposal);
    }
    for i := 0 to |ms|
      invariant f.Valid() && f.blockchain.base == base && n <= i
      invariant forall k :: 0 <= k < n ==> !Decides(l, Collected(proposal, ms[..k]), ms[k])
      invariant n == i ==>
                  f.blockchain.stored == s && f.block == Some(Collected(proposal, ms[..i])) && f.sent == old(f.sent)
      invariant n < i ==>
                  var c := Collected(proposal, ms[..n + 1]);
                  && Decides(l, Collected(proposal, ms[..n]), ms[n]) && Acceptable(f.env, base, s, c)
                  && f.blockchain.stored == s + [c] && f.block == None
                  && f.sent == old(f.sent) + [ConfirmBlock(f.publicKey, c.hash, c.votes)]
    {
      VotesBefore(f.env, ms, i);
      CollectedSnoc(proposal, ms, i);
      if f.block.Some? {
        ghost var c := Collected(proposal, ms[..i]);
        CollectedSound(f.env, s, proposal, ms[..i]);
        OneVote(f, c, ms[i], views[i]);
        if !Decides(l, c, ms[i]) {
          n := i + 1;
        }
      } else {
        LateVote(f, ms[i], views[i]);
      }
    }
    assert ms[..|ms|] == ms;
  }

  lemma CollectedNone(b: Block)
    ensures Collected(b, []) == b
  {
  }

  lemma CollectedSnoc(b: Block, ms: seq<Message>, i: nat)
    requires i < |ms| && AreVotes(ms)
    ensures Collected(b, ms[..i + 1]) == CountedVote(Collected(b, ms[..i]), ms[i])
  {
    assert ms[..i + 1][..i] == ms[..i] && ms[..i + 1][i] == ms[i];
  }

  lemma CollectedSound(env: Env, s: seq<Block>, b: Block, ms: seq<Message>)
    requires AreVotes(ms) && VotesSigned(env, ms)
    requires SoundNext(env, s, b) && Distinct(VoteOrigins(b.votes)) && VotesVerify(env, b)
    ensures var c := Collected(b, ms);
      SoundNext(env, s, c) && Distinct(VoteOrigins(c.votes)) && VotesVerify(env, c)
  {
    hide ValidContent, VotesVerify, VotesSigned, Collected;
    CollectedOk(env, b, ms);
  }

  /** One more vote on the held candidate. */
  method OneVote(f: BlockFactory, ghost c: Block, m: Message, view: View)
    requires f.Valid() && f.block == Some(c) && m.SignBlock? && f.env.verify(m.origin, m.sig, m.hash)
    requires SoundNext(f.env, f.blockchain.stored, c) && Distinct(VoteOrigins(c.votes)) && VotesVerify(f.env, c)
    requires ViewOk(view) && |f.blockchain.stored| + 1 < KEY_LIMIT
    requires Chooses(view, f.blockchain.stored, f.publicKey)
    modifies f, f.blockchain
    ensures f.Valid() && f.blockchain.base == old(f.blockchain.base)
    ensures var s, d := old(f.blockchain.stored), CountedVote(c, m);
      if Decides(LedgerAt(f.blockchain.base, s), c, m) then
        && Acceptable(f.env, f.blockchain.base, s, d) && f.blockchain.stored == s + [d] && f.block == None
        && f.sent == old(f.sent) + [ConfirmBlock(f.publicKey, d.hash, d.votes)]
      else f.blockchain.stored == s && f.block == Some(d) && f.sent == old(f.sent)
  {
    hide Blockchain.Valid, Blockchain.Linked, BlockFactory.Ready, BlockFactory.Valid, ViewOk, Chooses, ValidContent,
      VotesVerify, VoteOrigins, Decides, LedgerAt, CountedVote, MessageOutcome, Acceptable, Suffices;
    VoteStep(f.env, f.publicKey, f.blockchain.base, f.blockchain.stored, c, m);
    f.ProcessMessage(m, view);
  }

  /** Votes that come when the block is added already change nothing. */
  method LateVote(f: BlockFactory, m: Message, view: View)
    requires f.Valid() && f.block == None && m.SignBlock? && ViewOk(view) && |f.blockchain.stored| + 1 < KEY_LIMIT
    modifies f, f.blockchain
    ensures f.Valid() && f.blockchain.base == old(f.blockchain.base)
    ensures f.blockchain.stored == old(f.blockchain.stored) && f.block == None && f.sent == old(f.sent)
  {
    f.ProcessMessage(m, view);
  }

  /** The pool is the sorted list of the senders' transactions. */
  lemma SortedPool(f: BlockFactory)
    requires f.Valid()
    ensures f.arrayPoolTx == SortBySig(OrderedMaps.Values(f.current))
    ensures var s := f.blockchain.stored;
      s != [] && s[|s| - 1].height == |s| && |s[|s| - 1].hash| == |s[|s| - 1].previousHash|
  {
    hide SortBySig, ValidTx;
  }

  lemma ProposalVotes(env: Env, tip: Block, pool: seq<Tx>, b: Block, pk: string)
    requires b == WithVote(MakeBlock(env, tip, pool), Vote(pk, env.sign(pk, MakeBlock(env, tip, pool).hash)))
    ensures b.(votes := []) == MakeBlock(env, tip, pool) && b.votes == [Vote(pk, env.sign(pk, b.hash))]
    ensures b.height == tip.height + 1 && b.previousHash == tip.hash
  {
  }

  lemma VotesBefore(env: Env, ms: seq<Message>, i: nat)
    requires i < |ms| && AreVotes(ms) && VotesSigned(env, ms)
    ensures AreVotes(ms[..i]) && VotesSigned(env, ms[..i]) && env.verify(ms[i].origin, ms[i].sig, ms[i].hash)
  {
  }

  /** A chain from the same genesis block with the same hashes, none of them by collision. */
  ghost predicate SameTip(env: Env, s: seq<Block>, t: seq<Block>) {
    && FromGenesis(env, s) && t != [] && KeysOk(t[0].tx) && s[0].(votes := []) == t[0].(votes := [])
    && |s| == |t| && (forall i :: 0 <= i < |s| ==> s[i].hash == t[i].hash) && NoCollisions(env, s, t)
  }

  /**
   The other half of the round: a block that one node accepted on a chain s is accepted, with its votes, by every node
   of the round machine at the same tip that holds the candidate when the confirmation arrives.
   */
  method ConfirmationArrives(g: BlockFactory, view: View, validator: string, ghost s: seq<Block>, b: Block)
    requires g.Valid() && ViewOk(view) && |g.blockchain.stored| + 1 < KEY_LIMIT && g.blockchain.base == EMPTY
    requires SameTip(g.env, s, g.blockchain.stored) && Chooses(view, g.blockchain.stored, validator)
    requires Acceptable(g.env, EMPTY, s, b)
    requires Held(g.block, b.hash) && ValidContent(g.env, g.block.value) && NoCollision(g.env, b, g.block.value)
    modifies g, g.blockchain
    ensures g.Valid() && g.blockchain.stored == old(g.blockchain.stored) + [b] && g.block == None
    ensures g.sent == old(g.sent)
  {
    hide Blockchain.Valid, Blockchain.Linked, PoolOk, MakeTx, ViewOk, ValidTx, IssuedOk, OwnOk, Due, CommittedOk,
      Chooses, TipSized, HashSized, RecordOf, Commits, InFlight, Blockchain.LedgerView, ValidContent, ValidVotes,
      LedgerAt, FromGenesis, NoCollisions, NoCollision, KeysOk, Numbered, Certified;
    ghost var t, c := g.blockchain.stored, g.block.value;
    NodeFromGenesis(g.blockchain);
    ConfirmationCarriesOver(g.env, s, t, b, c);
    SameContent(g.env, s, t, b, c);
    g.ProcessMessage(ConfirmBlock(validator, b.hash, b.votes), view);
  }

  /**
   The whole round at a follower: it gets the proposal from the validator, holds and signs it, and adds the block that
   the validator accepted when the confirmation comes, also if it sees other peers online by then.
   */
  method FollowRound(g: BlockFactory, first: View, second: View, validator: string, ghost s: seq<Block>,
                     proposal: Block, b: Block)
    requires g.Valid() && ViewOk(first) && ViewOk(second) && |g.blockchain.stored| + 1 < KEY_LIMIT
    requires g.blockchain.base == EMPTY && SameTip(g.env, s, g.blockchain.stored) && validator != g.publicKey
    requires Chooses(first, g.blockchain.stored, validator) && Chooses(second, g.blockchain.stored, validator)
    requires SoundNext(g.env, g.blockchain.stored, proposal) && NoCollision(g.env, b, proposal)
    requires Acceptable(g.env, EMPTY, s, b) && proposal.hash == b.hash
    modifies g, g.blockchain
    ensures g.Valid() && g.blockchain.stored == old(g.blockchain.stored) + [b] && g.block == None
    ensures g.sent == old(g.sent) +
              [SignBlock(g.publicKey, validator, proposal.hash, g.env.sign(g.publicKey, proposal.hash))]
  {
    hide BlockFactory.Valid, BlockFactory.Ready, Blockchain.Valid, Blockchain.Linked, ViewOk, Chooses, ValidContent,
      VoteOutcome, ConfirmOutcome, NoCollision, SameTip, Acceptable;
    g.ProcessMessage(ProposeBlock(validator, proposal), first);
    ConfirmationArrives(g, second, validator, s, b);
  }

  lemma SameContent(env: Env, s: seq<Block>, t: seq<Block>, b: Block, c: Block)
    requires Acceptable(env, EMPTY, s, b) && ValidContent(env, c) && c.hash == b.hash
    requires |s| == |t| && (forall i :: 0 <= i < |s| ==> s[i].hash == t[i].hash) && c.previousHash == t[|t| - 1].hash
    requires NoCollision(env, b, c)
    ensures c.(votes := b.votes) == b
  {
    hide ValidTx, TxOrigins, ValidVotes, NoCollision;
    HashCommits(env, b, c);
  }
}
