/** The life of a node's ledger across resets: `clear` forgets the peers but not the weight they had. */
module Resets {
  import opened Text
  import opened Types
  import opened Weights
  import opened Ledgers
  import opened Validations
  import opened Chains
  import opened Blockchains

  /** A surplus as large as all stakes makes every block unacceptable, however many peers sign it. */
  lemma SurplusRejectsEverything(env: Env, base: Ledger, surplus: int, s: seq<Block>, b: Block)
    requires Sound(LedgerAt(base, s), surplus) && Total(LedgerAt(base, s).peers) <= surplus
    ensures !Acceptable(env, base, s, b)
  {
    hide ValidContent, QuorumOf;
    SurplusBlocksQuorum(LedgerAt(base, s), surplus);
  }

  predicate OnlyAddsPeers(ops: seq<Op>) {
    forall i :: 0 <= i < |ops| ==> ops[i].command.AddPeer?
  }

  /** Which peers are added does not depend on weights, tallies or address maps. */
  lemma {:induction false} SamePeers(l: Ledger, m: Ledger, ops: seq<Op>)
    requires l.peers == m.peers && OnlyAddsPeers(ops)
    ensures ApplyAll(l, ops).peers == ApplyAll(m, ops).peers
  {
    if ops != [] {
      SamePeers(l, m, ops[..|ops| - 1]);
    }
  }

  /** `clear` takes the peers away, so all recorded weight becomes surplus; tallies go on. */
  lemma ClearedSound(l: Ledger, surplus: int)
    requires Sound(l, surplus)
    ensures Sound(Cleared(l), l.weight)
  {
    SetWeightBounds(l.peers, {});
    NoPeersNoWeight(Cleared(l).peers.Keys);
  }

  lemma OneBlock(base: Ledger, genesis: Block)
    ensures LedgerAt(base, [genesis]) == ApplyAll(base, Ops(genesis.tx))
  {
    assert [genesis][..0] == [];
  }

  /** The second time round the peers are the same and the weight of the first time is surplus. */
  lemma ResetTwice(l: Ledger, ops: seq<Op>)
    requires Sound(l, 0) && l.peers == map[]
    requires OnlyAddsPeers(ops) && forall i :: 0 <= i < |ops| ==> OpOk(ops[i])
    ensures var once := ApplyAll(l, ops);
      var twice := ApplyAll(Cleared(once), ops);
      && twice.peers == once.peers && Sound(twice, once.weight) && Total(twice.peers) == once.weight
  {
    hide ApplyAll, OpOk, OnlyAddsPeers, PeersSound, TalliesSound, Total;
    var once := ApplyAll(l, ops);
    ApplyAllSound(l, 0, ops);
    ClearedSound(once, 0);
    ApplyAllSound(Cleared(once), once.weight, ops);
    SamePeers(l, Cleared(once), ops);
  }

  lemma EmptySound()
    ensures Sound(EMPTY, 0)
  {
    StartInOrder();
  }

  /**
   A node that is reset to a genesis block of peers, and then reset to it again (as a bootstrapping node is whose own
   genesis file is that of the network), records twice the stake its peers have and never accepts another block.
   */
  lemma SecondResetStalls(env: Env, genesis: Block, b: Block)
    requires KeysOk(genesis.tx) && OnlyAddsPeers(Ops(genesis.tx))
    ensures var once := LedgerAt(EMPTY, [genesis]);
      var twice := LedgerAt(Cleared(once), [genesis]);
      && twice.peers == once.peers && twice.weight == 2 * Total(twice.peers)
      && !Acceptable(env, Cleared(once), [genesis], b)
  {
    hide ApplyAll, Acceptable;
    OneBlock(EMPTY, genesis);
    OneBlock(Cleared(LedgerAt(EMPTY, [genesis])), genesis);
    ResetTwice(EMPTY, Ops(genesis.tx)) by {
      EmptySound();
      OpsOk(genesis.tx);
    }
    var once := LedgerAt(EMPTY, [genesis]);
    SurplusRejectsEverything(env, Cleared(once), once.weight, [genesis], b);
  }

  // ---------- any life of a node ----------

  /** What can happen to a chain: a reset to some genesis block, or a block that is offered to it. */
  datatype Event = ResetTo(genesis: Block) | Offered(b: Block)

  predicate EventOk(e: Event) {
    e.ResetTo? ==> e.genesis.height == 1 && KeysOk(e.genesis.tx)
  }

  /** The blocks stored after these events, and the ledger the first of them was executed on. */
  function Lived(env: Env, events: seq<Event>): (Ledger, seq<Block>) {
    if events == [] then (EMPTY, [])
    else
      var (base, s) := Lived(env, events[..|events| - 1]);
      match events[|events| - 1]
      case ResetTo(genesis) => (Cleared(LedgerAt(base, s)), [genesis])
      case Offered(b) => if Acceptable(env, base, s, b) then (base, s + [b]) else (base, s)
  }

  lemma LivedNext(env: Env, events: seq<Event>, i: nat)
    requires i < |events|
    ensures var (base, s) := Lived(env, events[..i]);
      Lived(env, events[..i + 1]) ==
        match events[i]
        case ResetTo(genesis) => (Cleared(LedgerAt(base, s)), [genesis])
        case Offered(b) => if Acceptable(env, base, s, b) then (base, s + [b]) else (base, s)
  {
    hide Acceptable, LedgerAt;
    assert events[..i + 1][..i] == events[..i];
  }

  function Executes(ops: seq<Op>): (steps: seq<Step>)
    ensures |steps| == |ops|
  {
    seq(|ops|, i requires 0 <= i < |ops| => Execute(ops[i]))
  }

  lemma {:induction false} RunExecutes(steps: seq<Step>, ops: seq<Op>)
    ensures Run(steps + Executes(ops)).l == ApplyAll(Run(steps).l, ops)
    ensures Run(steps + Executes(ops)).surplus == Run(steps).surplus
  {
    if ops == [] {
      assert steps + Executes(ops) == steps;
    } else {
      var front := ops[..|ops| - 1];
      RunExecutes(steps, front);
      assert (steps + Executes(ops))[..|steps| + |ops| - 1] == steps + Executes(front);
    }
  }

  lemma RunOneBlock(steps: seq<Step>, base: Ledger, s: seq<Block>, b: Block)
    requires StepsOk(steps) && KeysOk(b.tx) && Run(steps).l == LedgerAt(base, s)
    ensures StepsOk(steps + Executes(Ops(b.tx)))
    ensures Run(steps + Executes(Ops(b.tx))).l == LedgerAt(base, s + [b])
    ensures Run(steps + Executes(Ops(b.tx))).surplus == Run(steps).surplus
  {
    hide Run, ApplyAll, LedgerAt, OpOk, Ops;
    OpsOk(b.tx);
    RunExecutes(steps, Ops(b.tx));
    LedgerAtExtends(base, s, b);
  }

  lemma RunClear(steps: seq<Step>)
    requires StepsOk(steps)
    ensures StepsOk(steps + [Clear])
    ensures Run(steps + [Clear]).l == Cleared(Run(steps).l) && Run(steps + [Clear]).surplus == Run(steps).l.weight
  {
    assert (steps + [Clear])[..|steps|] == steps;
  }

  lemma NothingYet(base: Ledger)
    ensures LedgerAt(base, []) == base
  {
  }

  /**
   Through any sequence of resets and offered blocks the node's own fields are those of a run of commands and clears,
   so all that EveryRun says of a run holds of them: the recorded weight is the stake of the peers plus the weight at
   the last clear, no stake is negative, and the state store mirrors peers and data.
   */
  method AnyLife(env: Env, publicKey: string, maxBlocks: nat, maxQuery: nat, events: seq<Event>)
      returns (b: Blockchain, ghost steps: seq<Step>)
    requires maxBlocks >= 1 && maxQuery >= 1 && |events| < KEY_LIMIT - 1
    requires forall i :: 0 <= i < |events| ==> EventOk(events[i])
    ensures fresh(b) && b.Valid() && StepsOk(steps)
    ensures b.LedgerView() == Run(steps).l && InOrder(Run(steps))
    ensures b.quorumWeighted == Total(b.mapPeer) + Run(steps).surplus
    ensures (b.base, b.stored) == Lived(env, events)
  {
    hide Run, LedgerAt, ApplyAll, Ops, KeysOk, StepsOk, Acceptable, Certified, Mirrors, PeersSound, TalliesSound, Total,
      Blockchain.Linked, Lived, Credits, Executes, Blockchain.LedgerView;
    b := new Blockchain(env, publicKey, maxBlocks, maxQuery, []);
    FreshIsValid(b);
    steps := [];
    NoSteps(env);
    assert events[..0] == [];
    for i := 0 to |events|
      invariant fresh(b) && b.Valid() && |b.stored| <= i
      invariant StepsOk(steps) && Run(steps).l == LedgerAt(b.base, b.stored)
      invariant b.env == env && (b.base, b.stored) == Lived(env, events[..i])
    {
      LivedNext(env, events, i);
      match events[i] {
        case ResetTo(genesis) =>
          LedgerIs(b);
          RunClear(steps);
          NothingYet(Cleared(b.LedgerView()));
          RunOneBlock(steps + [Clear], Cleared(b.LedgerView()), [], genesis);
          b.Reset(genesis);
          steps := steps + [Clear] + Executes(Ops(genesis.tx));
          assert [] + [genesis] == [genesis];
        case Offered(block) =>
          ghost var s := b.stored;
          var ok := b.Add(block);
          if ok {
            AcceptedKeys(env, b.base, s, block);
            RunOneBlock(steps, b.base, s, block);
            steps := steps + Executes(Ops(block.tx));
          }
      }
    }
    assert events[..|events|] == events;
    LedgerIs(b);
    EveryRun(steps);
  }

  lemma FreshIsValid(b: Blockchain)
    requires b.Configured() && b.stored == [] && b.base == EMPTY && b.View() == Chain(0, [], None, EMPTY, [])
    ensures b.Valid() && LedgerAt(b.base, b.stored) == EMPTY
  {
  }

  lemma NoSteps(env: Env)
    ensures StepsOk([]) && Run([]).l == EMPTY && Lived(env, []) == (EMPTY, [])
  {
  }

  lemma LedgerIs(b: Blockchain)
    requires b.Valid()
    ensures b.LedgerView() == LedgerAt(b.base, b.stored) && b.LedgerView().weight == b.quorumWeighted
    ensures b.LedgerView().peers == b.mapPeer
  {
  }

  lemma AcceptedKeys(env: Env, base: Ledger, s: seq<Block>, b: Block)
    requires Acceptable(env, base, s, b)
    ensures KeysOk(b.tx)
  {
    ValidContentKeys(env, b);
  }
}
