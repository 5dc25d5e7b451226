/** The round machine of one node: own transactions, the validator's pool, the candidate block and its votes. */
module Rounds {
  import opened Text
  import opened Types
  import opened Weights
  import opened Ledgers
  import opened Validations
  import opened Chains
  import opened Blockchains
  import opened Validators
  import opened Proposals
  import OrderedMaps

  const MAX_LENGTH_IDENT: nat := 32

  /** A stacked own transaction, not yet signed. */
  datatype Record = Record(ident: string, commands: seq<Command>)

  /** The own transaction in flight, signed for one height. */
  datatype OwnTx = OwnTx(height: int, tx: Tx)

  datatype Message =
    | AddTx(origin: string, dest: string, height: int, tx: Tx)
    | ProposeBlock(origin: string, block: Block)
    | SignBlock(origin: string, dest: string, hash: string, sig: string)
    | ConfirmBlock(origin: string, hash: string, votes: seq<Vote>)

  function MakeTx(env: Env, pk: string, height: int, r: Record): Tx {
    Tx(r.ident, pk, r.commands, env.sign(pk, TxText(env, height, r.commands)))
  }

  /** The record for stacked commands: a given ident is kept if it is short enough, else a fresh one is taken. */
  function NewRecord(commands: seq<Command>, ident: string, freshIdent: string): Record {
    Record(if ident != "" && |ident| <= MAX_LENGTH_IDENT then ident else freshIdent, commands)
  }

  function RecordOf(own: OwnTx): Record {
    Record(own.tx.ident, own.tx.commands)
  }

  function Records(owns: seq<OwnTx>): (r: seq<Record>)
    ensures |r| == |owns|
  {
    seq(|owns|, i requires 0 <= i < |owns| => RecordOf(owns[i]))
  }

  function InFlight(own: Option<OwnTx>): seq<Record> {
    if own.Some? then [RecordOf(own.value)] else []
  }

  predicate HasSig(txs: seq<Tx>, sig: string) {
    exists i :: 0 <= i < |txs| && txs[i].sig == sig
  }

  /** The block contains the own transaction in flight. */
  predicate Commits(own: Option<OwnTx>, b: Option<Block>) {
    own.Some? && b.Some? && HasSig(b.value.tx, own.value.tx.sig)
  }

  function Committing(own: Option<OwnTx>, b: Option<Block>): seq<OwnTx> {
    if Commits(own, b) then [own.value] else []
  }

  /** What is committed when the chain s has become t. */
  function NewlyCommitted(own: Option<OwnTx>, s: seq<Block>, t: seq<Block>): seq<OwnTx> {
    if |s| < |t| then Committing(own, Some(t[|s|])) else []
  }

  function WithVote(b: Block, v: Vote): Block {
    b.(votes := b.votes + [v])
  }

  // ---------- what a message does ----------

  /** The chain, the candidate and the messages sent after a step. */
  datatype Outcome = Outcome(stored: seq<Block>, block: Option<Block>, sent: seq<Message>)

  predicate Held(block: Option<Block>, hash: string) {
    block.Some? && block.value.hash == hash
  }

  /** A candidate that continues the chain and is valid without its votes. */
  predicate SoundNext(env: Env, s: seq<Block>, b: Block) {
    s != [] && b.height == |s| + 1 && b.previousHash == s[|s| - 1].hash && ValidContent(env, b)
  }

  predicate Suffices(env: Env, l: Ledger, b: Block) {
    ValidContent(env, b) && ValidVotes(env, l, b)
  }

  predicate Quorate(l: Ledger, b: Block) {
    QuorumOf(l.peers, l.weight, VoteOrigins(b.votes))
  }

  /** A vote for the candidate: only one per origin, and at quorum the block goes to the chain and to everybody. */
  function VoteOutcome(env: Env, pk: string, base: Ledger, s: seq<Block>, b: Block, v: Vote): Outcome {
    if v.origin in VoteOrigins(b.votes) then Outcome(s, Some(b), [])
    else
      var c := WithVote(b, v);
      if !Quorate(LedgerAt(base, s), c) then Outcome(s, Some(c), [])
      else if Suffices(env, LedgerAt(base, s), c) then Outcome(s + [c], None, [ConfirmBlock(pk, c.hash, c.votes)])
      else Outcome(s, Some(c), [ConfirmBlock(pk, c.hash, c.votes)])
  }

  /** A sound proposal: its signature goes to the validator, or counts at once. */
  function SignOutcome(env: Env, pk: string, base: Ledger, s: seq<Block>, b: Block, validator: string): Outcome {
    if validator == pk then VoteOutcome(env, pk, base, s, b, Vote(pk, env.sign(pk, b.hash)))
    else Outcome(s, Some(b), [SignBlock(pk, validator, b.hash, env.sign(pk, b.hash))])
  }

  function ConfirmOutcome(env: Env, base: Ledger, s: seq<Block>, b: Block, votes: seq<Vote>): Outcome {
    var c := b.(votes := votes);
    if Suffices(env, LedgerAt(base, s), c) then Outcome(s + [c], None, []) else Outcome(s, Some(c), [])
  }

  /** A message that passes the validator gate. Whatever the handlers decline changes nothing. */
  function MessageOutcome(env: Env, pk: string, base: Ledger, s: seq<Block>, block: Option<Block>, m: Message): Outcome
  {
    match m
    case AddTx(_, _, _, _) => Outcome(s, block, [])
    case ProposeBlock(origin, b) =>
      if SoundNext(env, s, b) then SignOutcome(env, pk, base, s, b, origin) else Outcome(s, block, [])
    case SignBlock(origin, _, hash, sig) =>
      if Held(block, hash) then VoteOutcome(env, pk, base, s, block.value, Vote(origin, sig)) else Outcome(s, block, [])
    case ConfirmBlock(_, hash, votes) =>
      if Held(block, hash) then ConfirmOutcome(env, base, s, block.value, votes) else Outcome(s, block, [])
  }

  /** The hash of the block a message is about. */
  function HashIn(m: Message): string {
    match m
    case AddTx(_, _, _, _) => ""
    case ProposeBlock(_, b) => b.hash
    case SignBlock(_, _, hash, _) => hash
    case ConfirmBlock(_, hash, _) => hash
  }

  /** The pool after a transaction arrived. */
  function Pooled(env: Env, height: int, current: seq<(string, Tx)>, block: Option<Block>, m: Message):
      seq<(string, Tx)>
    requires m.AddTx?
  {
    current + if block.None? && m.height == height && !OrderedMaps.Has(current, m.origin) && ValidTx(env, height, m.tx)
              then [(m.origin, m.tx)] else []
  }

  // ---------- what every step keeps ----------

  /** Hashes have one length, as base64url of SHA-256 does. */
  ghost predicate HashSized(env: Env) {
    forall s :: |env.hash(s)| == 43
  }

  predicate TipSized(s: seq<Block>) {
    s != [] && |s[|s| - 1].hash| == 43 == |s[|s| - 1].previousHash|
  }

  /** The validator for the block after this chain, in this view of the network. */
  predicate Chooses(view: View, s: seq<Block>, who: string) {
    TipSized(s) && IsChosen(view, |s|, s[|s| - 1].hash, s[|s| - 1].previousHash, who)
  }

  /** A candidate without looking at who sent its transactions. */
  predicate ContentButOrigins(env: Env, b: Block) {
    b.tx != [] && HashOk(env, b) && AllValid(env, b.height, b.tx)
  }

  /**
   A held candidate continues the tip. If its votes were collected here they have distinct origins; if it was checked
   on arrival so have its transactions.
   */
  predicate CandidateOk(env: Env, s: seq<Block>, block: Option<Block>, collected: bool, checked: bool) {
    block.Some? ==>
      var b := block.value;
      && s != [] && b.height == |s| + 1 && b.previousHash == s[|s| - 1].hash && ContentButOrigins(env, b)
      && (collected ==> Distinct(VoteOrigins(b.votes)))
      && (checked ==> Distinct(TxOrigins(b.tx)))
  }

  /** The pool is the sorted list of one transaction per sender, all valid for the next height. */
  predicate PoolOk(env: Env, height: int, current: seq<(string, Tx)>, pool: seq<Tx>) {
    KeysDistinct(current) && AllValid(env, height, OrderedMaps.Values(current))
    && pool == SortBySig(OrderedMaps.Values(current))
  }

  /** The own transaction in flight is signed for the next height. */
  predicate OwnOk(env: Env, pk: string, height: int, own: Option<OwnTx>) {
    own.Some? ==> own.value.height == height && own.value.tx == MakeTx(env, pk, height, RecordOf(own.value))
  }

  /** The own transaction that is in flight or would be sent next. */
  function Due(env: Env, pk: string, height: int, own: Option<OwnTx>, stack: seq<Record>): Option<OwnTx> {
    if own.Some? then own
    else if stack != [] then Some(OwnTx(height, MakeTx(env, pk, height, stack[0])))
    else None
  }

  /** Of all own transactions ever issued only the one that is due can enter the next block. */
  ghost predicate IssuedOk(height: int, due: Option<OwnTx>, issued: set<OwnTx>) {
    forall o :: o in issued ==> o.height <= height && (o.height == height ==> due == Some(o))
  }

  predicate IsIn(o: OwnTx, s: seq<Block>) {
    1 <= o.height <= |s| && HasSig(s[o.height - 1].tx, o.tx.sig)
  }

  /** What counts as committed is in the block of its height, in order, and whatever was issued and is there counts. */
  ghost predicate CommittedOk(s: seq<Block>, committed: seq<OwnTx>, issued: set<OwnTx>) {
    && (forall i, j :: 0 <= i < j < |committed| ==> committed[i].height < committed[j].height)
    && (forall i :: 0 <= i < |committed| ==> IsIn(committed[i], s))
    && (forall o :: o in issued && IsIn(o, s) ==> o in committed)
  }

  /** No proposal without transactions; a transaction in flight has its retry. */
  predicate TimersOk(own: Option<OwnTx>, pool: seq<Tx>, propose: bool, retry: bool) {
    (propose ==> pool != []) && (own.Some? ==> retry)
  }

  class BlockFactory {
    const env: Env
    const publicKey: string
    const blockchain: Blockchain

    var stackTransaction: seq<Record>
    var ownTx: Option<OwnTx>
    var current: seq<(string, Tx)>
    var arrayPoolTx: seq<Tx>
    var block: Option<Block>
    var validator: string
    var timeoutAddTx: bool
    var timeoutProposeBlock: bool
    var timeoutRetry: bool
    /** Everything broadcast so far. */
    var sent: seq<Message>

    /** All records ever accepted by `Stack`, and every own transaction that was committed, or ever issued. */
    ghost var accepted: seq<Record>
    ghost var committed: seq<OwnTx>
    ghost var issued: set<OwnTx>
    /** The candidate's votes were collected here; the candidate was checked on arrival. */
    ghost var collected: bool
    ghost var checked: bool

    ghost function Height(): int
      reads this, blockchain
    {
      |blockchain.stored| + 1
    }

    /** The round as it is also within a step, between `clear` and the next own transaction. */
    ghost predicate Ready()
      reads this, blockchain
    {
      && blockchain.Valid() && blockchain.env == env && HashSized(env) && TipSized(blockchain.stored)
      && CandidateOk(env, blockchain.stored, block, collected, checked)
      && PoolOk(env, Height(), current, arrayPoolTx)
      && OwnOk(env, publicKey, Height(), ownTx)
      && IssuedOk(Height(), Due(env, publicKey, Height(), ownTx, stackTransaction), issued)
      && TimersOk(ownTx, arrayPoolTx, timeoutProposeBlock, timeoutRetry)
      && CommittedOk(blockchain.stored, committed, issued)
      && accepted == Records(committed) + InFlight(ownTx) + stackTransaction
    }

    /** No step changes the starting ledger or what was accepted; ownership moves only with a block. */
    twostate predicate Framed()
      reads this, blockchain
    {
      && accepted == old(accepted) && blockchain.base == old(blockchain.base)
      && committed == old(committed) + NewlyCommitted(old(ownTx), old(blockchain.stored), blockchain.stored)
      && (blockchain.stored == old(blockchain.stored) ==> unchanged(`ownTx, `stackTransaction, `issued))
    }

    /** Between steps: an issued transaction for the next height is in flight, and what waits has a timer. */
    ghost predicate Valid()
      reads this, blockchain
    {
      Ready() && IssuedOk(Height(), ownTx, issued) && (stackTransaction != [] ==> ownTx.Some? || timeoutAddTx)
    }

    constructor (env: Env, publicKey: string, blockchain: Blockchain)
      requires blockchain.Valid() && blockchain.env == env && HashSized(env) && TipSized(blockchain.stored)
      ensures Valid() && this.env == env && this.publicKey == publicKey && this.blockchain == blockchain
      ensures accepted == [] && committed == [] && sent == [] && block == None && issued == {}
    {
      hide Blockchain.Valid, Blockchain.Linked, PoolOk, CandidateOk, OwnOk, IssuedOk, Due, CommittedOk, HashSized,
        TipSized, Records, InFlight;
      this.env, this.publicKey, this.blockchain := env, publicKey, blockchain;
      EmptyFacts(env, blockchain.stored, |blockchain.stored| + 1);
      FreshRound(env, publicKey, |blockchain.stored| + 1, {}, []);
      NothingIssued(env, publicKey, |blockchain.stored| + 1, blockchain.stored);
      stackTransaction, ownTx, current, arrayPoolTx, block, validator := [], None, [], [], None, "";
      timeoutAddTx, timeoutProposeBlock, timeoutRetry, sent := false, false, false, [];
      accepted, committed, issued, collected, checked := [], [], {}, false, false;
    }

    method CalcValidator(view: View)
      requires blockchain.Valid() && TipSized(blockchain.stored) && ViewOk(view)
      modifies this`validator
      ensures Chooses(view, blockchain.stored, validator)
      ensures var tip := blockchain.stored[|blockchain.stored| - 1];
        forall sums :: DistanceSums(tip.hash, tip.previousHash, sums) ==>
          IsMet(view, |blockchain.stored|, sums[|tip.hash|], validator)
    {
      hide Blockchain.Valid, Blockchain.Linked, ViewOk, IsChosen, IsMet, DistanceSums;
      TipFacts(blockchain);
      var tip := blockchain.latestBlock.value;
      validator := Validators.CalcValidator(view, blockchain.height, tip.hash, tip.previousHash);
    }

    /** Accepts own commands for a later block; they wait in line. */
    method Stack(commands: seq<Command>, ident: string, freshIdent: string, view: View) returns (ok: bool)
      requires Valid() && ViewOk(view)
      modifies this
      ensures Valid() && committed == old(committed)
      ensures var r := NewRecord(commands, ident, freshIdent);
        && (ok <==> ValidTx(env, Height(), MakeTx(env, publicKey, Height(), r)))
        && accepted == old(accepted) + (if ok then [r] else [])
        && (ok ==> ownTx == Due(env, publicKey, Height(), old(ownTx), old(stackTransaction) + [r]))
      ensures ok ==>
        var r := accepted[|old(accepted)|];
        r.commands == commands && r.ident == if 1 <= |ident| <= 32 then ident else freshIdent
      ensures !ok ==> unchanged(this)
    {
      hide Blockchain.Valid, Blockchain.Linked, ValidTx, PoolOk, CandidateOk, MakeTx, ViewOk;
      TipFacts(blockchain);
      var height := blockchain.height + 1;
      var r := NewRecord(commands, ident, freshIdent);
      if !ValidTx(env, height, MakeTx(env, publicKey, height, r)) {
        return false;
      }
      stackTransaction := stackTransaction + [r];
      accepted := accepted + [r];
      DoAddTx(view);
      return true;
    }

    /** Signs the first waiting record for the next height and sends it to the validator, if none is in flight. */
    method DoAddTx(view: View)
      requires Ready() && ViewOk(view)
      modifies this
      ensures Valid() && committed == old(committed) && accepted == old(accepted) && block == old(block)
      ensures old(ownTx).Some? || old(stackTransaction) == [] ==> unchanged(this)
      ensures old(ownTx).None? && old(stackTransaction) != [] ==>
        && ownTx == Some(OwnTx(Height(), MakeTx(env, publicKey, Height(), old(stackTransaction)[0])))
        && stackTransaction == old(stackTransaction)[1..]
        && sent == old(sent) +
             (if validator == publicKey then [] else [AddTx(publicKey, validator, Height(), ownTx.value.tx)])
        && (validator != publicKey ==> current == old(current))
    {
      hide Blockchain.Valid, Blockchain.Linked, ValidTx, PoolOk, CandidateOk, ViewOk, MakeTx, Chooses, HashSized,
        OrderedMaps.Has, RecordOf, IssuedOk, OwnOk, Due, CommittedOk, Records, InFlight, Blockchain.LedgerView;
      if ownTx.Some? || |stackTransaction| == 0 {
        NothingToIssue(env, publicKey, Height(), ownTx, stackTransaction);
        return;
      }
      var own := SignNext();
      CalcValidator(view);
      var atx := AddTx(publicKey, validator, own.height, own.tx);
      if validator == publicKey {
        ProcessAddTx(atx);
      } else {
        sent := sent + [atx];
      }
    }

    /** Takes the first waiting record, signs it for the next height, and arms the retry. */
    method SignNext() returns (own: OwnTx)
      requires Ready() && ownTx.None? && stackTransaction != []
      modifies this`stackTransaction, this`ownTx, this`issued, this`timeoutRetry
      ensures Valid() && stackTransaction == old(stackTransaction)[1..]
      ensures ownTx == Some(own) && own == OwnTx(Height(), MakeTx(env, publicKey, Height(), old(stackTransaction)[0]))
    {
      hide Blockchain.Valid, Blockchain.Linked, ValidTx, PoolOk, CandidateOk, MakeTx, HashSized, RecordOf, IssuedOk,
        OwnOk, Due, CommittedOk, Records, Blockchain.LedgerView;
      TipFacts(blockchain);
      var height := blockchain.height + 1;
      var r := stackTransaction[0];
      assert stackTransaction == [r] + stackTransaction[1..];
      var tx := MakeTx(env, publicKey, height, r);
      IssueFacts(env, publicKey, height, r, stackTransaction[1..], issued);
      IssuingKeeps(blockchain.stored, committed, issued, OwnTx(height, tx));
      stackTransaction, ownTx := stackTransaction[1..], Some(OwnTx(height, tx));
      issued, timeoutRetry := issued + {OwnTx(height, tx)}, true;
      return OwnTx(height, tx);
    }

    /** The validator pools a transaction: one per sender, valid for the next height, while no candidate is held. */
    method ProcessAddTx(m: Message)
      requires m.AddTx? && blockchain.Valid() && blockchain.env == env && blockchain.stored != []
      requires PoolOk(env, Height(), current, arrayPoolTx) && (timeoutProposeBlock ==> arrayPoolTx != [])
      modifies this`current, this`arrayPoolTx, this`timeoutProposeBlock
      ensures PoolOk(env, Height(), current, arrayPoolTx) && (timeoutProposeBlock ==> arrayPoolTx != [])
      ensures var pooled := block.None? && m.height == Height() && !OrderedMaps.Has(old(current), m.origin)
                            && ValidTx(env, Height(), m.tx);
        && current == old(current) + (if pooled then [(m.origin, m.tx)] else [])
        && (pooled ==> timeoutProposeBlock) && (!pooled ==> arrayPoolTx == old(arrayPoolTx))
    {
      hide Blockchain.Valid, Blockchain.Linked, ValidTx, PoolOk, OrderedMaps.Has, OrderedMaps.Set, SortBySig;
      TipFacts(blockchain);
      var height := blockchain.height + 1;
      if block.Some? || m.height != height || OrderedMaps.Has(current, m.origin) || !ValidTx(env, height, m.tx) {
        return;
      }
      PoolGrows(env, height, current, arrayPoolTx, m.origin, m.tx);
      current := OrderedMaps.Set(current, m.origin, m.tx);
      arrayPoolTx := SortBySig(OrderedMaps.Values(current));
      timeoutProposeBlock := true;
    }

    /** The proposal timer: the pool becomes a candidate with the validator's own vote. It is never empty. */
    method ProposeTimer()
      requires Valid() && timeoutProposeBlock
      modifies this
      ensures Valid() && committed == old(committed) && accepted == old(accepted)
      ensures var tip := blockchain.stored[|blockchain.stored| - 1];
        && arrayPoolTx != [] && current == old(current)
        && block == Some(WithVote(MakeBlock(env, tip, arrayPoolTx),
                                  Vote(publicKey, env.sign(publicKey, MakeBlock(env, tip, arrayPoolTx).hash))))
        && collected && sent == old(sent) + [ProposeBlock(publicKey, block.value)]
        && (ValidContent(env, block.value) <==> Distinct(TxOrigins(OrderedMaps.Values(current))))
        && (SendersOwn(current) ==> ValidContent(env, block.value))
    {
      hide Blockchain.Valid, Blockchain.Linked, ValidTx, PoolOk, IssuedOk, OwnOk, MakeTx, ValidContent, SendersOwn,
        TxOrigins;
      TipFacts(blockchain);
      timeoutProposeBlock := false;
      var b := MakeBlock(env, blockchain.latestBlock.value, arrayPoolTx);
      block := Some(WithVote(b, Vote(publicKey, env.sign(publicKey, b.hash))));
      ProposalFacts(env, blockchain.stored, current, arrayPoolTx, block.value);
      collected, checked := true, false;
      sent := sent + [ProposeBlock(publicKey, block.value)];
    }

    /** Holds and signs any valid candidate for the next height, also a second one. */
    method ProcessProposeBlock(m: Message, view: View)
      requires Valid() && ViewOk(view) && m.ProposeBlock? && |blockchain.stored| + 1 < KEY_LIMIT
      modifies this, blockchain
      ensures Valid() && Framed()
      ensures !SoundNext(env, old(blockchain.stored), m.block) ==> unchanged(this) && unchanged(blockchain)
      ensures SoundNext(env, old(blockchain.stored), m.block) && blockchain.stored == old(blockchain.stored) ==> checked
      ensures SoundNext(env, old(blockchain.stored), m.block) ==>
        var s := old(blockchain.stored);
        forall v :: Chooses(view, s, v) ==>
          var o := SignOutcome(env, publicKey, blockchain.base, s, m.block, v);
          && blockchain.stored == o.stored && block == o.block && sent == old(sent) + o.sent
          && (o.stored == s ==> current == old(current))
    {
      hide Blockchain.Valid, Blockchain.Linked, PoolOk, IssuedOk, OwnOk, MakeTx, Chooses, ViewOk, ValidTx,
        ValidContent, CandidateOk, Due, CommittedOk, HashSized, RecordOf, Commits, InFlight, HasSig,
        Blockchain.LedgerView, SignOutcome, HashOk, BlockHash;
      TipFacts(blockchain);
      var b := m.block;
      if b.height != blockchain.height + 1 || b.previousHash != blockchain.latestBlock.value.hash {
        return;
      }
      var valid := ValidateBlock(env, blockchain.LedgerView(), b, false);
      if !valid {
        return;
      }
      CheckedCandidate(env, blockchain.stored, b);
      // the retry is armed at once: an accepted block is stored first and clears the round afterwards
      block, collected, checked, timeoutRetry := Some(b), false, true, true;
      SignHeld(view);
    }

    /** Signs the candidate it holds and sends the signature to the validator, or counts it if that is this node. */
    method SignHeld(view: View)
      requires Valid() && ViewOk(view) && block.Some? && |blockchain.stored| + 1 < KEY_LIMIT
      modifies this, blockchain
      ensures Valid() && Framed()
      ensures blockchain.stored == old(blockchain.stored) ==> checked == old(checked)
      ensures var s := old(blockchain.stored);
        forall v :: Chooses(view, s, v) ==>
          var o := SignOutcome(env, publicKey, blockchain.base, s, old(block.value), v);
          && blockchain.stored == o.stored && block == o.block && sent == old(sent) + o.sent
          && (o.stored == s ==> current == old(current))
    {
      hide Blockchain.Valid, Blockchain.Linked, PoolOk, IssuedOk, OwnOk, MakeTx, Chooses, ViewOk, CandidateOk, Due,
        CommittedOk, HashSized, RecordOf, Commits, InFlight, Blockchain.LedgerView, VoteOutcome;
      TipNonEmpty(blockchain.stored);
      CalcValidator(view);
      OnlyOneChosen(view, blockchain.stored, validator);
      var sb := SignBlock(publicKey, validator, block.value.hash, env.sign(publicKey, block.value.hash));
      if validator == publicKey {
        var added := ProcessSignBlock(sb, view);
      } else {
        sent := sent + [sb];
      }
    }

    /**
     The validator collects one vote per origin for its candidate, without checking the signature, and adds the block
     as soon as the voters reach quorum.
     */
    method ProcessSignBlock(m: Message, view: View) returns (added: bool)
      requires Valid() && ViewOk(view) && m.SignBlock? && |blockchain.stored| + 1 < KEY_LIMIT
      modifies this, blockchain
      ensures Valid() && Framed()
      ensures added <==> blockchain.stored != old(blockchain.stored)
      ensures !added ==>
                && unchanged(blockchain) && collected == old(collected) && checked == old(checked)
                && current == old(current)
      ensures !Held(old(block), m.hash) ==> unchanged(this) && unchanged(blockchain)
      ensures Held(old(block), m.hash) ==>
        var o := VoteOutcome(env, publicKey, blockchain.base, old(blockchain.stored), old(block.value),
                             Vote(m.origin, m.sig));
        blockchain.stored == o.stored && block == o.block && sent == old(sent) + o.sent
      ensures Held(old(block), m.hash) && m.origin !in VoteOrigins(old(block.value.votes)) ==>
        var b := WithVote(old(block.value), Vote(m.origin, m.sig));
        old(collected) && Quorate(old(blockchain.LedgerView()), b) ==>
          (added <==> Distinct(TxOrigins(b.tx)) && VotesVerify(env, b))
    {
      hide Blockchain.Valid, Blockchain.Linked, PoolOk, IssuedOk, OwnOk, MakeTx, ViewOk, ValidTx, CandidateOk, Due,
        CommittedOk, QuorumOf, VoteOrigins, ValidContent, ValidVotes, VotesVerify, TxOrigins, Acceptable, Chooses,
        RecordOf, Commits, InFlight, HashSized, TipSized, WithVote, LedgerAt, Blockchain.LedgerView;
      TipNonEmpty(blockchain.stored);
      TipFacts(blockchain);
      added := false;
      if block.None? || block.value.hash != m.hash {
        return;
      }
      var voted := HasVoted(block.value.votes, m.origin);
      if voted {
        return;
      }
      var b := WithVote(block.value, Vote(m.origin, m.sig));
      VoteKeepsCandidate(env, blockchain.stored, block.value, Vote(m.origin, m.sig), collected, checked);
      block := Some(b);
      LedgerFields(blockchain);
      var quorum := HasQuorumWeighted(blockchain.mapPeer, blockchain.quorumWeighted, VoteOrigins(b.votes));
      if quorum {
        CandidateAccepted(env, blockchain.base, blockchain.stored, b, collected, checked);
        added := AddBlock(b, view);
        sent := sent + [ConfirmBlock(publicKey, b.hash, b.votes)];
      }
    }

    /** The votes of a confirmation replace those of the held candidate, which is then added if they suffice. */
    method ProcessConfirmBlock(m: Message, view: View) returns (added: bool)
      requires Valid() && ViewOk(view) && m.ConfirmBlock? && |blockchain.stored| + 1 < KEY_LIMIT
      modifies this, blockchain
      ensures Valid() && Framed()
      ensures added <==> blockchain.stored != old(blockchain.stored)
      ensures !added ==> unchanged(blockchain) && checked == old(checked) && current == old(current)
      ensures !Held(old(block), m.hash) ==> unchanged(this) && unchanged(blockchain)
      ensures Held(old(block), m.hash) ==>
        var o := ConfirmOutcome(env, blockchain.base, old(blockchain.stored), old(block.value), m.votes);
        blockchain.stored == o.stored && block == o.block && sent == old(sent) + o.sent
      ensures Held(old(block), m.hash) && old(checked) ==>
                (added <==> ValidVotes(env, old(blockchain.LedgerView()), old(block.value).(votes := m.votes)))
    {
      hide Blockchain.Valid, Blockchain.Linked, PoolOk, IssuedOk, OwnOk, MakeTx, ViewOk, ValidTx, CandidateOk, Due,
        CommittedOk, ValidContent, ValidVotes, Acceptable, Chooses, RecordOf, Commits, InFlight, HashSized,
        TipSized, LedgerAt, Blockchain.LedgerView;
      TipNonEmpty(blockchain.stored);
      TipFacts(blockchain);
      added := false;
      if block.None? || block.value.hash != m.hash {
        return;
      }
      var b := block.value.(votes := m.votes);
      VotesReplaced(env, blockchain.stored, block.value, m.votes, collected, checked);
      CandidateAccepted(env, blockchain.base, blockchain.stored, b, false, checked);
      block, collected := Some(b), false;
      added := AddBlock(b, view);
    }

    /**
     Hands a block to the chain; when it is accepted the round starts afresh. The own transaction in flight is
     committed if the block contains it and otherwise goes back to the head of the line.
     */
    method AddBlock(b: Block, view: View) returns (ok: bool)
      requires Valid() && ViewOk(view) && |blockchain.stored| + 1 < KEY_LIMIT
      modifies this, blockchain
      ensures Valid() && Framed() && sent == old(sent)
      ensures ok <==> Acceptable(env, old(blockchain.base), old(blockchain.stored), b)
      ensures !ok ==> unchanged(this) && unchanged(blockchain)
      ensures ok ==>
        && blockchain.stored == old(blockchain.stored) + [b] && block == None && current == [] && ownTx == None
        && timeoutAddTx && Chooses(view, blockchain.stored, validator)
    {
      hide Blockchain.Valid, Blockchain.Linked, PoolOk, IssuedOk, OwnOk, MakeTx, ViewOk, ValidTx, CandidateOk, Due,
        HasSig, Acceptable, TipSized, Chooses, HashSized, RecordOf, Blockchain.LedgerView, Credits, Ops, Commits,
        CommittedOk, Records, Committing, InFlight;
      ValidIsLinked(blockchain);
      ok := blockchain.Add(b);
      if !ok {
        return;
      }
      NextRoundFacts(env, publicKey, old(blockchain.base), old(blockchain.stored), b, ownTx, stackTransaction, issued);
      CommittedGrows(env, publicKey, old(blockchain.stored), b, ownTx, committed, issued);
      QueueMoves(committed, ownTx, b, stackTransaction);
      Clear(Some(b));
      FreshRound(env, publicKey, |blockchain.stored| + 1, old(issued), stackTransaction);
      EmptyFacts(env, blockchain.stored, |blockchain.stored| + 1);
      CalcValidator(view);
      timeoutAddTx := true;
    }

    method Clear(b: Option<Block>)
      modifies this
      ensures sent == old(sent) && accepted == old(accepted) && issued == old(issued) && validator == old(validator)
      ensures ownTx == None && current == [] && arrayPoolTx == [] && block == None
      ensures !timeoutAddTx && !timeoutProposeBlock && !timeoutRetry
      ensures committed == old(committed) + Committing(old(ownTx), b)
      ensures stackTransaction ==
              (if Commits(old(ownTx), b) then [] else InFlight(old(ownTx))) + old(stackTransaction)
    {
      timeoutAddTx, timeoutProposeBlock, timeoutRetry := false, false, false;
      if ownTx.Some? {
        if b.None? || !HasSig(b.value.tx, ownTx.value.tx.sig) {
          stackTransaction := [Record(ownTx.value.tx.ident, ownTx.value.tx.commands)] + stackTransaction;
        } else {
          committed := committed + [ownTx.value];
        }
      }
      ownTx, current, arrayPoolTx, block := None, [], [], None;
    }

    /** The retry timer: the round is dropped and the own transaction sent again. */
    method RetryTimer(view: View)
      requires Valid() && ViewOk(view) && timeoutRetry
      modifies this
      ensures Valid() && accepted == old(accepted) && committed == old(committed) && block == None
      ensures ownTx == Due(env, publicKey, Height(), old(ownTx), old(stackTransaction))
      ensures ownTx.Some? && validator != publicKey ==>
                current == [] && sent == old(sent) + [AddTx(publicKey, validator, Height(), ownTx.value.tx)]
    {
      hide Blockchain.Valid, Blockchain.Linked, PoolOk, MakeTx, ViewOk, ValidTx, CandidateOk, HasSig;
      RetryFacts(env, publicKey, |blockchain.stored| + 1, ownTx, stackTransaction, issued);
      Clear(None);
      EmptyFacts(env, blockchain.stored, |blockchain.stored| + 1);
      DoAddTx(view);
    }

    method AddTxTimer(view: View)
      requires Valid() && ViewOk(view) && timeoutAddTx
      modifies this
      ensures Valid() && accepted == old(accepted) && committed == old(committed) && block == old(block)
      ensures ownTx == Due(env, publicKey, Height(), old(ownTx), old(stackTransaction))
    {
      hide Blockchain.Valid, Blockchain.Linked, PoolOk, MakeTx, ViewOk, ValidTx, CandidateOk, IssuedOk, OwnOk;
      timeoutAddTx := false;
      DoAddTx(view);
    }

    /**
     Messages are for the validator, or from the validator, as this node sees it. Any other message changes nothing but
     the validator; these have the outcome of their handlers.
     */
    method ProcessMessage(m: Message, view: View)
      requires Valid() && ViewOk(view) && |blockchain.stored| + 1 < KEY_LIMIT
      modifies this, blockchain
      ensures Valid() && Framed()
      ensures var s := old(blockchain.stored);
        var who := if m.AddTx? || m.SignBlock? then publicKey else m.origin;
        var passes := Chooses(view, s, who);
        var o := if passes then MessageOutcome(env, publicKey, blockchain.base, s, old(block), m)
                 else Outcome(s, old(block), []);
        && blockchain.stored == o.stored && block == o.block && sent == old(sent) + o.sent
        && (o.stored == s ==>
              current == if passes && m.AddTx? then Pooled(env, |s| + 1, old(current), old(block), m) else old(current))
        && (passes && m.ProposeBlock? && SoundNext(env, s, m.block) && o.stored == s ==> checked)
    {
      hide Blockchain.Valid, Blockchain.Linked, PoolOk, MakeTx, ViewOk, ValidTx, CandidateOk, IssuedOk, OwnOk, Due,
        CommittedOk, Chooses, TipSized, SoundNext, SignOutcome, VoteOutcome, ConfirmOutcome, OrderedMaps.Has,
        RecordOf, Commits, InFlight, HashSized, Blockchain.LedgerView;
      TipNonEmpty(blockchain.stored) by {
        assert TipSized(blockchain.stored);
      }
      CalcValidator(view);
      OnlyOneChosen(view, blockchain.stored, validator);
      match m {
        case AddTx(_, _, _, _) =>
          if validator == publicKey {
            ProcessAddTx(m);
          }
        case ProposeBlock(origin, _) =>
          if validator == origin {
            ProcessProposeBlock(m, view);
          }
        case SignBlock(_, _, _, _) =>
          if validator == publicKey {
            var added := ProcessSignBlock(m, view);
          }
        case ConfirmBlock(origin, _, _) =>
          if validator == origin {
            var added := ProcessConfirmBlock(m, view);
          }
      }
    }
  }

  method HasVoted(votes: seq<Vote>, origin: string) returns (voted: bool)
    ensures voted <==> origin in VoteOrigins(votes)
  {
    for i := 0 to |votes|
      invariant forall j :: 0 <= j < i ==> votes[j].origin != origin
    {
      if votes[i].origin == origin {
        assert VoteOrigins(votes)[i] == origin;
        return true;
      }
    }
    return false;
  }

  /** Everything that can happen to a node: calls, messages, timers and blocks from a sync. */
  datatype Event =
    | Stacked(commands: seq<Command>, ident: string, freshIdent: string)
    | Received(m: Message)
    | ProposeFires
    | RetryFires
    | AddTxFires
    | Synced(b: Block)

  /**
   Nothing stops a node from signing two candidates of one height: the second replaces the first. This is why
   agreement between ledgers is accountable and not unconditional.
   */
  method SignsTwice(f: BlockFactory, a: Block, b: Block, view: View, validator: string)
    requires f.Valid() && ViewOk(view) && |f.blockchain.stored| + 1 < KEY_LIMIT
    requires SoundNext(f.env, f.blockchain.stored, a) && SoundNext(f.env, f.blockchain.stored, b) && a.hash != b.hash
    requires Chooses(view, f.blockchain.stored, validator) && validator != f.publicKey
    modifies f, f.blockchain
    ensures f.Valid() && f.blockchain.stored == old(f.blockchain.stored)
    ensures f.sent == old(f.sent) + [SignBlock(f.publicKey, validator, a.hash, f.env.sign(f.publicKey, a.hash)),
                                     SignBlock(f.publicKey, validator, b.hash, f.env.sign(f.publicKey, b.hash))]
  {
    hide Blockchain.Valid, Blockchain.Linked, PoolOk, MakeTx, ViewOk, ValidTx, CandidateOk, IssuedOk, OwnOk, Due,
      CommittedOk, Chooses, TipSized, SoundNext, VoteOutcome, ConfirmOutcome, RecordOf, Commits, InFlight,
      HashSized;
    f.ProcessMessage(ProposeBlock(validator, a), view);
    f.ProcessMessage(ProposeBlock(validator, b), view);
  }

  /** The records the queue takes in, when the chain had these heights before each of the events. */
  function Accepts(env: Env, pk: string, events: seq<(Event, View)>, heights: seq<nat>): seq<Record>
    requires |heights| == |events|
  {
    if events == [] then []
    else
      var n := |events| - 1;
      Accepts(env, pk, events[..n], heights[..n]) +
      match events[n].0
      case Stacked(commands, ident, freshIdent) =>
        var r := NewRecord(commands, ident, freshIdent);
        if ValidTx(env, heights[n] + 1, MakeTx(env, pk, heights[n] + 1, r)) then [r] else []
      case _ => []
  }

  lemma AcceptsSnoc(env: Env, pk: string, events: seq<(Event, View)>, heights: seq<nat>, i: nat, height: nat)
    requires |heights| == i < |events|
    ensures Accepts(env, pk, events[..i + 1], heights + [height]) ==
            Accepts(env, pk, events[..i], heights) + Accepts(env, pk, [events[i]], [height])
  {
    assert events[..i + 1][..i] == events[..i] && (heights + [height])[..i] == heights;
    assert [events[i]][..0] == [] && [height][..0] == [];
  }

  lemma AcceptsOne(env: Env, pk: string, event: (Event, View), height: nat)
    ensures !event.0.Stacked? ==> Accepts(env, pk, [event], [height]) == []
    ensures event.0.Stacked? ==>
      var r := NewRecord(event.0.commands, event.0.ident, event.0.freshIdent);
      Accepts(env, pk, [event], [height]) ==
      if ValidTx(env, height + 1, MakeTx(env, pk, height + 1, r)) then [r] else []
  {
    assert [event][..0] == [] && [height][..0] == [];
  }

  /**
   How an event moves the chain, seen on the chain s at the end: from h blocks to h' blocks. A synced block is added
   exactly if it is acceptable, a message can add a block of the hash it names, and nothing else adds blocks.
   */
  predicate Moves(env: Env, base: Ledger, s: seq<Block>, event: Event, h: nat, h': nat) {
    h <= h' <= |s| && h' <= h + 1 &&
    match event
    case Synced(b) => (h' == h + 1 <==> Acceptable(env, base, s[..h], b)) && (h' == h + 1 ==> s[h] == b)
    case Received(m) => h' == h + 1 ==> !m.AddTx? && s[h].hash == HashIn(m)
    case _ => h' == h
  }

  lemma MovesStay(env: Env, base: Ledger, s: seq<Block>, t: seq<Block>, event: Event, h: nat, h': nat)
    requires Moves(env, base, s, event, h, h') && s <= t
    ensures Moves(env, base, t, event, h, h')
  {
    assert t[..h] == s[..h];
  }

  lemma MessageMoves(env: Env, pk: string, base: Ledger, s: seq<Block>, block: Option<Block>, m: Message)
    ensures var t := MessageOutcome(env, pk, base, s, block, m).stored;
      s <= t && Moves(env, base, t, Received(m), |s|, |t|)
  {
    hide SoundNext, Quorate, Suffices;
  }

  /**
   Every run of steps keeps the round invariant, in any interleaving; a timer fires only while it is armed. The queue
   takes in what is stacked and valid at the time, and what it took in is, in order, what was committed, what is in
   flight and what still waits, each exactly once. Committed is what is in the block of its height, and of the own
   transactions ever issued all that are in a block are committed. `heights` are the heights before each event and at
   the end.
   */
  method AnyRun(f: BlockFactory, events: seq<(Event, View)>) returns (ghost heights: seq<nat>)
    requires f.Valid() && |f.blockchain.stored| + |events| < KEY_LIMIT
    requires forall i :: 0 <= i < |events| ==> ViewOk(events[i].1)
    modifies f, f.blockchain
    ensures f.Valid() && f.blockchain.base == old(f.blockchain.base) && old(f.blockchain.stored) <= f.blockchain.stored
    ensures |heights| == |events| + 1
    ensures heights[0] == |old(f.blockchain.stored)| && heights[|events|] == |f.blockchain.stored|
    ensures forall i :: 0 <= i < |events| ==>
              Moves(f.env, f.blockchain.base, f.blockchain.stored, events[i].0, heights[i], heights[i + 1])
    ensures f.accepted == old(f.accepted) + Accepts(f.env, f.publicKey, events, heights[..|events|])
    ensures f.accepted == Records(f.committed) + InFlight(f.ownTx) + f.stackTransaction
    ensures old(f.committed) <= f.committed
    ensures forall i, j :: 0 <= i < j < |f.committed| ==> f.committed[i].height < f.committed[j].height
    ensures forall i :: 0 <= i < |f.committed| ==> IsIn(f.committed[i], f.blockchain.stored)
    ensures forall o :: o in f.issued && IsIn(o, f.blockchain.stored) ==> o in f.committed
  {
    hide Blockchain.Valid, Blockchain.Linked, PoolOk, MakeTx, ViewOk, ValidTx, CandidateOk, IssuedOk, OwnOk, Due,
      Chooses, TipSized, ValidContent, ValidVotes, Acceptable, HasSig, Accepts, NewRecord, Commits,
      Blockchain.LedgerView, Moves, MessageOutcome, CommittedOk, HashSized, Records;
    heights := [|f.blockchain.stored|];
    NothingAccepted(f.env, f.publicKey);
    for i := 0 to |events|
      invariant f.Valid() && |f.blockchain.stored| <= |old(f.blockchain.stored)| + i && |heights| == i + 1
      invariant f.blockchain.base == old(f.blockchain.base) && old(f.blockchain.stored) <= f.blockchain.stored
      invariant heights[0] == |old(f.blockchain.stored)| && heights[i] == |f.blockchain.stored|
      invariant forall j :: 0 <= j < i ==>
                  Moves(f.env, f.blockchain.base, f.blockchain.stored, events[j].0, heights[j], heights[j + 1])
      invariant f.accepted == old(f.accepted) + Accepts(f.env, f.publicKey, events[..i], heights[..i])
      invariant old(f.committed) <= f.committed
    {
      ghost var before := f.blockchain.stored;
      AcceptsSnoc(f.env, f.publicKey, events, heights[..i], i, heights[i]);
      AcceptsOne(f.env, f.publicKey, events[i], heights[i]);
      assert heights[..i + 1] == heights[..i] + [heights[i]];
      Step(f, events[i].0, events[i].1);
      forall j | 0 <= j < i
        ensures Moves(f.env, f.blockchain.base, f.blockchain.stored, events[j].0, heights[j], heights[j + 1])
      {
        MovesStay(f.env, f.blockchain.base, before, f.blockchain.stored, events[j].0, heights[j], heights[j + 1]);
      }
      heights := heights + [|f.blockchain.stored|];
      assert heights[..i + 1] == heights[..i + 1][..i] + [heights[i]];
    }
    assert events[..|events|] == events;
    CommittedIs(f.blockchain.stored, f.committed, f.issued) by {
      assert f.Valid();
    }
  }

  /** One event. */
  method Step(f: BlockFactory, event: Event, view: View)
    requires f.Valid() && ViewOk(view) && |f.blockchain.stored| + 1 < KEY_LIMIT
    modifies f, f.blockchain
    ensures f.Valid() && f.blockchain.base == old(f.blockchain.base) && old(f.blockchain.stored) <= f.blockchain.stored
    ensures var s, t := old(f.blockchain.stored), f.blockchain.stored;
      && Moves(f.env, f.blockchain.base, t, event, |s|, |t|)
      && f.committed == old(f.committed) + NewlyCommitted(old(f.ownTx), s, t)
    ensures |f.blockchain.stored| <= |old(f.blockchain.stored)| + 1
    ensures f.accepted == old(f.accepted) + Accepts(f.env, f.publicKey, [(event, view)], [|old(f.blockchain.stored)|])
  {
    hide Blockchain.Valid, Blockchain.Linked, PoolOk, MakeTx, ViewOk, ValidTx, CandidateOk, IssuedOk, OwnOk, Due,
      Chooses, TipSized, Acceptable, HasSig, Accepts, NewRecord, Commits, Blockchain.LedgerView, MessageOutcome,
      CommittedOk, HashSized, Records, RecordOf, Committing;
    ghost var s := f.blockchain.stored;
    AcceptsOne(f.env, f.publicKey, (event, view), |s|);
    assert s[..|s|] == s;
    match event {
      case Stacked(commands, ident, freshIdent) => var ok := f.Stack(commands, ident, freshIdent, view);
      case Received(m) =>
        MessageMoves(f.env, f.publicKey, f.blockchain.base, s, f.block, m);
        f.ProcessMessage(m, view);
      case ProposeFires =>
        if f.timeoutProposeBlock {
          f.ProposeTimer();
        }
      case RetryFires =>
        if f.timeoutRetry {
          f.RetryTimer(view);
        }
      case AddTxFires =>
        if f.timeoutAddTx {
          f.AddTxTimer(view);
        }
      case Synced(b) => var ok := f.AddBlock(b, view);
    }
  }

  lemma CommittedIs(s: seq<Block>, committed: seq<OwnTx>, issued: set<OwnTx>)
    requires CommittedOk(s, committed, issued)
    ensures forall i, j :: 0 <= i < j < |committed| ==> committed[i].height < committed[j].height
    ensures forall i :: 0 <= i < |committed| ==> IsIn(committed[i], s)
    ensures forall o :: o in issued && IsIn(o, s) ==> o in committed
  {
  }

  lemma NothingAccepted(env: Env, pk: string)
    ensures Accepts(env, pk, [], []) == []
  {
  }

  // ---------- lemmas behind the steps ----------

  /** The first waiting record goes out: it was due, so nothing else is issued for this height. */
  lemma IssueFacts(env: Env, pk: string, height: int, r: Record, rest: seq<Record>, issued: set<OwnTx>)
    requires IssuedOk(height, Due(env, pk, height, None, [r] + rest), issued)
    ensures var own := OwnTx(height, MakeTx(env, pk, height, r));
      && RecordOf(own) == r && OwnOk(env, pk, height, Some(own))
      && IssuedOk(height, Some(own), issued + {own}) && Due(env, pk, height, Some(own), rest) == Some(own)
  {
  }

  lemma NothingToIssue(env: Env, pk: string, height: int, own: Option<OwnTx>, stack: seq<Record>)
    requires own.Some? || stack == []
    ensures Due(env, pk, height, own, stack) == own
  {
  }

  lemma PoolGrows(env: Env, height: int, current: seq<(string, Tx)>, pool: seq<Tx>, origin: string, tx: Tx)
    requires PoolOk(env, height, current, pool) && !OrderedMaps.Has(current, origin) && ValidTx(env, height, tx)
    ensures OrderedMaps.Set(current, origin, tx) == current + [(origin, tx)]
    ensures var next := OrderedMaps.Set(current, origin, tx);
      PoolOk(env, height, next, SortBySig(OrderedMaps.Values(next))) && SortBySig(OrderedMaps.Values(next)) != []
  {
    hide ValidTx, SortBySig;
    OrderedMaps.SetAppends(current, origin, tx);
    var next := current + [(origin, tx)];
    assert OrderedMaps.Values(next) == OrderedMaps.Values(current) + [tx];
    SortMembers(OrderedMaps.Values(next));
    forall i | 0 <= i < |current| ensures next[i].0 != origin {
      assert current[i].0 != origin;
    }
  }

  /** The proposal built from a pool is a sound candidate, and valid exactly if no origin is in the pool twice. */
  lemma ProposalFacts(env: Env, s: seq<Block>, current: seq<(string, Tx)>, pool: seq<Tx>, b: Block)
    requires s != [] && s[|s| - 1].height == |s| && PoolOk(env, |s| + 1, current, pool) && pool != []
    requires b.(votes := []) == MakeBlock(env, s[|s| - 1], pool) && |b.votes| == 1
    ensures CandidateOk(env, s, Some(b), true, false)
    ensures ValidContent(env, b) <==> Distinct(TxOrigins(OrderedMaps.Values(current)))
    ensures SendersOwn(current) ==> ValidContent(env, b)
  {
    hide ValidTx, SortBySig, TxOrigins;
    var values := OrderedMaps.Values(current);
    SortMembers(values);
    ProposalIsValid(env, s[|s| - 1], values);
    if SendersOwn(current) {
      OwnTransactionsAreDistinct(current);
    }
    forall i | 0 <= i < |pool| ensures ValidTx(env, |s| + 1, pool[i]) {
      assert pool[i] in values;
    }
    assert ValidContent(env, b) <==> ValidContent(env, b.(votes := []));
  }

  lemma OnlyOneChosen(view: View, s: seq<Block>, validator: string)
    requires ViewOk(view) && Chooses(view, s, validator)
    ensures forall who :: Chooses(view, s, who) <==> who == validator
  {
    hide IsChosen;
    forall who | Chooses(view, s, who) ensures who == validator {
      ChoiceIsUnique(view, view, |s|, s[|s| - 1].hash, s[|s| - 1].previousHash, who, validator);
    }
  }

  lemma TipNonEmpty(s: seq<Block>)
    requires TipSized(s)
    ensures s != [] && |s[|s| - 1].hash| == |s[|s| - 1].previousHash|
  {
  }

  lemma CheckedCandidate(env: Env, s: seq<Block>, b: Block)
    requires s != [] && b.height == |s| + 1 && b.previousHash == s[|s| - 1].hash && ValidContent(env, b)
    ensures CandidateOk(env, s, Some(b), false, true)
  {
  }

  lemma VoteKeepsCandidate(env: Env, s: seq<Block>, b: Block, v: Vote, collected: bool, checked: bool)
    requires CandidateOk(env, s, Some(b), collected, checked) && v.origin !in VoteOrigins(b.votes)
    ensures CandidateOk(env, s, Some(WithVote(b, v)), collected, checked)
  {
    hide ValidTx, TxOrigins;
    assert VoteOrigins(WithVote(b, v).votes) == VoteOrigins(b.votes) + [v.origin];
  }

  lemma VotesReplaced(env: Env, s: seq<Block>, b: Block, votes: seq<Vote>, collected: bool, checked: bool)
    requires CandidateOk(env, s, Some(b), collected, checked)
    ensures CandidateOk(env, s, Some(b.(votes := votes)), false, checked)
  {
    hide ValidTx, TxOrigins;
  }

  /** What the full check still looks at, for a candidate that was held. */
  lemma CandidateAccepted(env: Env, base: Ledger, s: seq<Block>, b: Block, collected: bool, checked: bool)
    requires CandidateOk(env, s, Some(b), collected, checked)
    ensures var l := LedgerAt(base, s);
      && (Acceptable(env, base, s, b) <==> ValidContent(env, b) && ValidVotes(env, l, b))
      && (checked ==> ValidContent(env, b))
      && (ValidContent(env, b) <==> Distinct(TxOrigins(b.tx)))
      && (collected && QuorumOf(l.peers, l.weight, VoteOrigins(b.votes)) ==>
            (ValidVotes(env, l, b) <==> VotesVerify(env, b)))
  {
    hide ValidTx, TxOrigins, QuorumOf, VotesVerify;
  }

  lemma LedgerFields(b: Blockchain)
    ensures b.LedgerView().peers == b.mapPeer && b.LedgerView().weight == b.quorumWeighted
  {
  }

  lemma RecordsConcat(a: seq<OwnTx>, b: seq<OwnTx>)
    ensures Records(a + b) == Records(a) + Records(b)
  {
  }

  /** The line of own transactions when a block is added: what was in flight is committed or first in line again. */
  lemma QueueMoves(committed: seq<OwnTx>, own: Option<OwnTx>, b: Block, stack: seq<Record>)
    ensures Records(committed) + InFlight(own) + stack ==
            Records(committed + Committing(own, Some(b))) + InFlight(None) +
            ((if Commits(own, Some(b)) then [] else InFlight(own)) + stack)
  {
    hide HasSig, Records;
    RecordsConcat(committed, Committing(own, Some(b)));
    RecordsOne(own);
  }

  lemma RecordsOne(own: Option<OwnTx>)
    ensures Records([]) == [] && (own.Some? ==> Records([own.value]) == InFlight(own))
  {
  }

  /** An accepted block commits the own transaction in flight, if it contains it, and no other that was issued. */
  lemma CommittedGrows(env: Env, pk: string, s: seq<Block>, b: Block, own: Option<OwnTx>, committed: seq<OwnTx>,
                       issued: set<OwnTx>)
    requires CommittedOk(s, committed, issued) && IssuedOk(|s| + 1, own, issued) && OwnOk(env, pk, |s| + 1, own)
    ensures CommittedOk(s + [b], committed + Committing(own, Some(b)), issued)
  {
    hide HasSig, MakeTx;
    var next := committed + Committing(own, Some(b));
    forall i | 0 <= i < |next| ensures IsIn(next[i], s + [b]) {
      assert i < |committed| ==> IsIn(committed[i], s);
    }
    forall i, j | 0 <= i < j < |next| ensures next[i].height < next[j].height {
      assert IsIn(committed[i], s);
    }
    forall o | o in issued && IsIn(o, s + [b]) ensures o in next {
      assert o.height <= |s| ==> IsIn(o, s);
    }
  }

  /** A transaction that is issued for the next height is in no block yet. */
  lemma IssuingKeeps(s: seq<Block>, committed: seq<OwnTx>, issued: set<OwnTx>, o: OwnTx)
    requires CommittedOk(s, committed, issued) && o.height == |s| + 1
    ensures CommittedOk(s, committed, issued + {o})
  {
  }

  /** An accepted block keeps the tip's hashes sized, and holds no issued own transaction but the one in flight. */
  lemma NextRoundFacts(env: Env, pk: string, base: Ledger, s: seq<Block>, b: Block, own: Option<OwnTx>,
                       stack: seq<Record>, issued: set<OwnTx>)
    requires HashSized(env) && TipSized(s) && Acceptable(env, base, s, b) && IssuedOk(|s| + 1, own, issued)
    ensures TipSized(s + [b]) && b.height == |s| + 1
    ensures forall o :: o in issued && o.height == b.height ==> own == Some(o)
    ensures forall o :: o in issued ==> o.height < |s| + 2
  {
    hide ValidTx, TxOrigins, ValidVotes;
  }

  lemma FreshRound(env: Env, pk: string, height: int, issued: set<OwnTx>, stack: seq<Record>)
    requires forall o :: o in issued ==> o.height < height
    ensures OwnOk(env, pk, height, None)
    ensures IssuedOk(height, None, issued) && IssuedOk(height, Due(env, pk, height, None, stack), issued)
  {
  }

  lemma NothingIssued(env: Env, pk: string, height: int, s: seq<Block>)
    ensures CommittedOk(s, [], {}) && Records([]) + InFlight(None) + [] == []
  {
  }

  lemma EmptyFacts(env: Env, s: seq<Block>, height: int)
    ensures PoolOk(env, height, [], [])
    ensures forall collected, checked :: CandidateOk(env, s, None, collected, checked)
  {
  }

  lemma RetryFacts(env: Env, pk: string, height: int, own: Option<OwnTx>, stack: seq<Record>, issued: set<OwnTx>)
    requires OwnOk(env, pk, height, own) && IssuedOk(height, own, issued)
    ensures IssuedOk(height, Due(env, pk, height, None, InFlight(own) + stack), issued)
  {
  }
}
