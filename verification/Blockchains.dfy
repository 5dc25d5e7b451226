/** The blockchain object of one node: fields updated in place, tied at all times to the blocks it stores. */
module Blockchains {
  import opened Text
  import opened Types
  import opened Weights
  import opened Ledgers
  import opened Validations
  import opened Chains
  import opened Ranges
  import OrderedMaps

  /** What `add` accepts on top of the stored blocks s. */
  predicate Acceptable(env: Env, base: Ledger, s: seq<Block>, b: Block) {
    && s != []
    && b.height == |s| + 1
    && b.previousHash == s[|s| - 1].hash
    && ValidContent(env, b)
    && ValidVotes(env, LedgerAt(base, s), b)
  }

  /** Every block but the first was accepted on top of those before it. */
  ghost predicate Certified(env: Env, base: Ledger, s: seq<Block>) {
    forall i :: 1 <= i < |s| ==> Acceptable(env, base, s[..i], s[i])
  }

  /** A vote for the local node, which earns its origin a stake credit. */
  predicate Credited(l: Ledger, op: Op, local: string) {
    op.command.ModifyStake? && op.command.publicKey == local && Counts(l, op.origin, local)
  }

  /** The origins credited while ops are executed, in order. */
  function Credits(l: Ledger, ops: seq<Op>, local: string): seq<string> {
    if ops == [] then []
    else
      var front, last := ops[..|ops| - 1], ops[|ops| - 1];
      Credits(l, front, local) + if Credited(ApplyAll(l, front), last, local) then [last.origin] else []
  }

  lemma {:induction false} CreditsConcat(l: Ledger, a: seq<Op>, b: seq<Op>, local: string)
    ensures Credits(l, a + b, local) == Credits(l, a, local) + Credits(ApplyAll(l, a), b, local)
  {
    if b == [] {
      assert a + b == a;
    } else {
      assert (a + b)[..|a + b| - 1] == a + b[..|b| - 1];
      CreditsConcat(l, a, b[..|b| - 1], local);
      ApplyAllConcat(l, a, b[..|b| - 1]);
    }
  }

  /** A vote for a local peer, by anybody else and whether or not it repeats another, is credited to its origin. */
  lemma CreditsSnoc(l: Ledger, ops: seq<Op>, op: Op, local: string)
    ensures var before := ApplyAll(l, ops);
      Credits(l, ops + [op], local) == Credits(l, ops, local) +
        if op.command.ModifyStake? && op.command.publicKey == local && local in before.peers && op.origin != local
        then [op.origin] else []
    ensures Credits(l, [], local) == []
  {
    assert (ops + [op])[..|ops|] == ops;
  }

  lemma NothingExecuted(l: Ledger, local: string)
    ensures Ops([]) == [] && ApplyAll(l, []) == l && Credits(l, [], local) == []
    ensures forall origin :: OpsOf(origin, []) == []
  {
  }

  lemma ExecutedIs(l: Ledger, b: Block, txs: seq<Tx>)
    requires |txs| == |b.tx| && forall k :: 0 <= k < |txs| ==> txs[k] == WrittenTxs(l, b.tx)[k]
    ensures b.(tx := txs) == Executed(l, b)
  {
    assert txs == WrittenTxs(l, b.tx);
  }

  /** One more command of a transaction. */
  lemma CommandSnoc(l: Ledger, origin: string, commands: seq<Command>, j: nat, local: string)
    requires j < |commands|
    ensures var before, op := OpsOf(origin, commands[..j]), Op(origin, commands[j]);
      && ApplyAll(l, OpsOf(origin, commands[..j + 1])) == Apply(ApplyAll(l, before), op)
      && WrittenCommands(l, origin, commands)[j] == Written(ApplyAll(l, before), op)
      && Credits(l, OpsOf(origin, commands[..j + 1]), local) ==
         Credits(l, before, local) + if Credited(ApplyAll(l, before), op, local) then [op.origin] else []
  {
    var ops := OpsOf(origin, commands[..j + 1]);
    assert ops[..j] == OpsOf(origin, commands[..j]) && ops[j] == Op(origin, commands[j]);
  }

  /** One more transaction of a block. */
  lemma TxSnoc(l: Ledger, txs: seq<Tx>, i: nat, local: string)
    requires i < |txs|
    ensures var before, ops := Ops(txs[..i]), OpsOf(txs[i].origin, txs[i].commands);
      && ApplyAll(l, Ops(txs[..i + 1])) == ApplyAll(ApplyAll(l, before), ops)
      && Credits(l, Ops(txs[..i + 1]), local) == Credits(l, before, local) + Credits(ApplyAll(l, before), ops, local)
      && WrittenTxs(l, txs)[i] ==
         txs[i].(commands := WrittenCommands(ApplyAll(l, before), txs[i].origin, txs[i].commands))
  {
    assert txs[..i + 1][..i] == txs[..i];
    ApplyAllConcat(l, Ops(txs[..i]), OpsOf(txs[i].origin, txs[i].commands));
    CreditsConcat(l, Ops(txs[..i]), OpsOf(txs[i].origin, txs[i].commands), local);
  }

  /** The lookup behind a range query: in memory if both ends are there, else in the database. */
  lemma LookupServes(base: Ledger, s: seq<Block>, max: nat, query: nat, gte: int, lte: int, lo: int, hi: int)
    requires max >= 1 && query >= 1 && s != [] && |s| < Text.KEY_LIMIT
    requires lo == RangeLo(|s|, query, gte, lte) && hi == RangeHi(|s|, gte, lte)
    ensures 0 <= lo && 0 <= hi
    ensures var w := Window(base, s, max);
      var start := |w| - |s| + lo - 1;
      var end := start + hi - lo + 1;
      if OrderedMaps.Has(w, lo) && OrderedMaps.Has(w, hi) then
        0 <= start <= end <= |OrderedMaps.Values(w)|
        && OrderedMaps.Values(w)[start..end] == Served(base, s, max, query, gte, lte)
      else Between(DbOf(s), BlockKey(lo), BlockKey(hi)) == Served(base, s, max, query, gte, lte)
  {
    hide Cached, Between, BlockKey, RangeLo, RangeHi, OrderedMaps.Has;
    var w := Window(base, s, max);
    var r := Served(base, s, max, query, gte, lte);
    WindowHas(base, s, max, lo);
    WindowHas(base, s, max, hi);
    BetweenIsSlice(s, lo, hi);
    if lo > |s| - WindowSize(s, max) {
      assert OrderedMaps.Values(w)[|w| - |s| + lo - 1..|w| - |s| + hi] == r;
    }
  }

  /** A vote is not looked at, or repeated: nothing happens. */
  lemma VoteIgnored(l: Ledger, origin: string, c: Command)
    requires c.ModifyStake?
    requires !Counts(l, origin, c.publicKey) || origin in Tally(l, TallyKey(c.publicKey, c.ident, c.stake))
    ensures Apply(l, Op(origin, c)) == l && Written(l, Op(origin, c)) == c
  {
  }

  /** A vote is one more in the tally. */
  lemma VoteCollected(l: Ledger, origin: string, c: Command, key: string, voters: seq<string>)
    requires c.ModifyStake? && key == TallyKey(c.publicKey, c.ident, c.stake) && voters == Tally(l, key) + [origin]
    requires Counts(l, origin, c.publicKey) && origin !in Tally(l, key) && !QuorumOf(l.peers, l.weight, voters)
    ensures Apply(l, Op(origin, c)) == l.(tallies := l.tallies[key := voters]) && Written(l, Op(origin, c)) == c
  {
  }

  /** A vote decides: the tally goes and the stake changes. */
  lemma VoteDecides(l: Ledger, origin: string, c: Command, key: string, voters: seq<string>)
    requires c.ModifyStake? && key == TallyKey(c.publicKey, c.ident, c.stake) && voters == Tally(l, key) + [origin]
    requires Counts(l, origin, c.publicKey) && origin !in Tally(l, key) && QuorumOf(l.peers, l.weight, voters)
    ensures l.tallies[key := voters] - {key} == l.tallies - {key}
    ensures var pk, d := c.publicKey, Cut(l.peers[c.publicKey].stake, c.stake);
      var p := l.peers[pk].(stake := l.peers[pk].stake + d);
      && Written(l, Op(origin, c)) == c.(stake := d)
      && Apply(l, Op(origin, c)) ==
         Ledger(l.peers[pk := p], l.http, l.udp, l.weight + d, l.tallies - {key},
                l.store[PeerKey(pk) := IntText(p.stake)])
  {
  }

  class Blockchain {
    const env: Env
    const publicKey: string
    const maxBlocks: nat
    const maxQuery: nat

    var height: int
    var mapBlocks: seq<(int, Block)>
    var latestBlock: Option<Block>
    var mapPeer: map<string, Peer>
    var mapHttp: map<string, string>
    var mapUdp: map<string, string>
    var quorumWeighted: int
    var mapModifyStake: map<string, seq<string>>
    var dbBlockchain: Db
    var dbState: map<string, string>
    /** The calls made to the server's incStakeCredit. */
    var credited: seq<string>

    /** The blocks in the database, and the ledger they were executed on. */
    ghost var stored: seq<Block>
    ghost var base: Ledger

    function LedgerView(): Ledger
      reads this
    {
      Ledger(mapPeer, mapHttp, mapUdp, quorumWeighted, mapModifyStake, dbState)
    }

    ghost function View(): Chain
      reads this
    {
      Chain(height, mapBlocks, latestBlock, LedgerView(), dbBlockchain)
    }

    ghost predicate Configured() {
      maxBlocks >= 1 && maxQuery >= 1
    }

    /** All state is a function of the stored blocks. */
    ghost predicate Linked()
      reads this
    {
      Configured() && Numbered(stored) && View() == ChainOf(base, stored, maxBlocks)
    }

    /** And these were accepted one by one. */
    ghost predicate Valid()
      reads this
    {
      Linked() && Certified(env, base, stored)
    }

    /** A node whose database holds db and whose memory is fresh. */
    constructor (env: Env, publicKey: string, maxBlocks: nat, maxQuery: nat, db: Db)
      requires maxBlocks >= 1 && maxQuery >= 1
      ensures this.env == env && this.publicKey == publicKey
      ensures this.maxBlocks == maxBlocks && this.maxQuery == maxQuery && credited == []
      ensures View() == Chain(0, [], None, EMPTY, db) && base == EMPTY && stored == []
    {
      this.env, this.publicKey, this.maxBlocks, this.maxQuery := env, publicKey, maxBlocks, maxQuery;
      height, mapBlocks, latestBlock := 0, [], None;
      mapPeer, mapHttp, mapUdp, quorumWeighted, mapModifyStake := map[], map[], map[], 0, map[];
      dbBlockchain, dbState, credited := db, map[], [];
      base, stored := EMPTY, [];
    }

    /** Database, window and peers go; weight, address maps and tallies stay. */
    method Clear()
      requires Configured()
      modifies this
      ensures Valid() && stored == [] && base == Cleared(old(LedgerView())) && credited == old(credited)
    {
      hide ChainOf, Numbered, Certified;
      NothingStored(Cleared(LedgerView()), [], maxBlocks);
      NothingCertified(env, Cleared(LedgerView()));
      dbBlockchain, dbState := [], map[];
      height, mapBlocks, latestBlock, mapPeer := 0, [], None, map[];
      base, stored := LedgerView(), [];
    }

    method Reset(genesis: Block)
      requires Configured() && genesis.height == 1
      modifies this
      ensures Valid() && stored == [genesis] && base == Cleared(old(LedgerView()))
    {
      Clear();
      dbBlockchain := Put(dbBlockchain, BlockKey(1), genesis);
      Init([genesis]);
    }

    /**
     Re-reads the database. Whatever the memory held before, the result is what storing these blocks on top of the
     current ledger gives; nothing is checked again.
     */
    method Init(ghost s: seq<Block>)
      requires Configured() && Numbered(s) && dbBlockchain == DbOf(s)
      modifies this
      ensures Linked() && stored == s && base == old(LedgerView()).(store := map[])
    {
      hide ChainOf, Numbered, DbOf, OrderedMaps.Values, InitStep;
      height, mapBlocks, latestBlock, dbState := 0, [], None, map[];
      base := LedgerView();
      var values := OrderedMaps.Values(dbBlockchain);
      NothingStored(base, s, maxBlocks);
      for i := 0 to |values|
        invariant dbBlockchain == DbOf(s) && base == old(LedgerView()).(store := map[])
        invariant View() == ChainOf(base, values[..i], maxBlocks).(db := DbOf(s))
      {
        assert values[..i + 1] == values[..i] + [values[i]];
        NumberedAt(s, i);
        InitExtends(base, values[..i], values[i], maxBlocks, DbOf(s));
        ReadBlock(values[i]);
      }
      assert values[..|values|] == s;
      stored := s;
    }

    /** One block of the database: cached first, then executed, and the cached object shows what was written back. */
    method ReadBlock(block: Block)
      modifies this`height, this`latestBlock, this`mapBlocks, this`mapPeer, this`mapHttp, this`mapUdp,
               this`quorumWeighted, this`mapModifyStake, this`dbState, this`credited
      ensures View() == InitStep(old(View()), block, maxBlocks)
    {
      hide ApplyAll, Ops, Executed, OrderedMaps.Set, UpdateCache, Credits;
      UpdateCacheKeeps(View(), block, maxBlocks);
      UpdateCacheFields(block);
      var written := ProcessState(block);
      mapBlocks, latestBlock := OrderedMaps.Set(mapBlocks, height, written), Some(written);
    }

    /** Appends the block if it is acceptable, else changes nothing. */
    method Add(block: Block) returns (ok: bool)
      requires Linked() && |stored| + 1 < KEY_LIMIT
      modifies this
      ensures Linked() && base == old(base) && (old(Valid()) ==> Valid())
      ensures ok <==> Acceptable(env, base, old(stored), block)
      ensures stored == if ok then old(stored) + [block] else old(stored)
      ensures !ok ==> unchanged(this)
      ensures credited == if ok then old(credited) + Credits(old(LedgerView()), Ops(block.tx), publicKey)
                          else old(credited)
    {
      hide ApplyAll, Ops, Executed, Certified, Put, OrderedMaps.Set, ValidContent, ValidVotes, Credits, Numbered,
        LedgerAt, Window, DbOf, Latest, OrderedMaps.Delete;
      ghost var c := View();
      LatestHash(base, stored);
      if height + 1 != block.height || latestBlock.None? || block.previousHash != latestBlock.value.hash {
        return false;
      }
      var valid := ValidateBlock(env, LedgerView(), block, true);
      if !valid {
        return false;
      }
      AddExtends(base, stored, block, maxBlocks);
      if Certified(env, base, stored) {
        CertifiedExtends(env, base, stored, block);
      }
      NumberedExtends(stored, block);
      dbBlockchain := Put(dbBlockchain, BlockKey(block.height), block);
      var written := ProcessState(block);
      UpdateCacheFields(written);
      assert View() == AddStep(c, block, maxBlocks);
      stored := stored + [block];
      return true;
    }

    method UpdateCacheFields(block: Block)
      modifies this`height, this`latestBlock, this`mapBlocks
      ensures View() == UpdateCache(old(View()), block, maxBlocks)
    {
      height, latestBlock := block.height, Some(block);
      mapBlocks := OrderedMaps.Set(mapBlocks, height, block);
      if |mapBlocks| > maxBlocks {
        mapBlocks := OrderedMaps.Delete(mapBlocks, height - maxBlocks);
      }
    }

    /** Executes a block; returns the block object as its commands were written back. */
    method ProcessState(block: Block) returns (written: Block)
      modifies this`mapPeer, this`mapHttp, this`mapUdp, this`quorumWeighted, this`mapModifyStake, this`dbState,
               this`credited
      ensures LedgerView() == ApplyAll(old(LedgerView()), Ops(block.tx))
      ensures written == Executed(old(LedgerView()), block)
      ensures credited == old(credited) + Credits(old(LedgerView()), Ops(block.tx), publicKey)
    {
      hide LedgerView, Executed, ApplyAll, Ops, OpsOf, Credits, WrittenTxs, WrittenCommands;
      ghost var l := LedgerView();
      NothingExecuted(l, publicKey);
      var txs: seq<Tx> := [];
      for i := 0 to |block.tx|
        invariant LedgerView() == ApplyAll(l, Ops(block.tx[..i]))
        invariant |txs| == i && forall k :: 0 <= k < i ==> txs[k] == WrittenTxs(l, block.tx)[k]
        invariant credited == old(credited) + Credits(l, Ops(block.tx[..i]), publicKey)
      {
        TxSnoc(l, block.tx, i, publicKey);
        var commands := ProcessCommands(block.tx[i]);
        txs := txs + [block.tx[i].(commands := commands)];
      }
      assert block.tx[..|block.tx|] == block.tx;
      written := block.(tx := txs);
      ExecutedIs(l, block, txs);
    }

    method ProcessCommands(t: Tx) returns (commands: seq<Command>)
      modifies this`mapPeer, this`mapHttp, this`mapUdp, this`quorumWeighted, this`mapModifyStake, this`dbState,
               this`credited
      ensures LedgerView() == ApplyAll(old(LedgerView()), OpsOf(t.origin, t.commands))
      ensures commands == WrittenCommands(old(LedgerView()), t.origin, t.commands)
      ensures credited == old(credited) + Credits(old(LedgerView()), OpsOf(t.origin, t.commands), publicKey)
    {
      hide LedgerView, Apply, ApplyAll, OpsOf, Credits, Credited, Written, WrittenCommands;
      ghost var l := LedgerView();
      NothingExecuted(l, publicKey);
      commands := [];
      for j := 0 to |t.commands|
        invariant LedgerView() == ApplyAll(l, OpsOf(t.origin, t.commands[..j]))
        invariant |commands| == j
        invariant forall k :: 0 <= k < j ==> commands[k] == WrittenCommands(l, t.origin, t.commands)[k]
        invariant credited == old(credited) + Credits(l, OpsOf(t.origin, t.commands[..j]), publicKey)
      {
        CommandSnoc(l, t.origin, t.commands, j, publicKey);
        var c := Execute(t.origin, t.commands[j]);
        commands := commands + [c];
      }
      assert t.commands[..|t.commands|] == t.commands;
    }

    /** The switch over the kinds of command; a decision is never taken, so it changes nothing. */
    method Execute(origin: string, c: Command) returns (written: Command)
      modifies this`mapPeer, this`mapHttp, this`mapUdp, this`quorumWeighted, this`mapModifyStake, this`dbState,
               this`credited
      ensures LedgerView() == Apply(old(LedgerView()), Op(origin, c))
      ensures written == Written(old(LedgerView()), Op(origin, c))
      ensures credited == old(credited) +
        if Credited(old(LedgerView()), Op(origin, c), publicKey) then [origin] else []
    {
      written := c;
      match c {
        case AddPeer(_, http, udp, pk) => AddPeer(http, udp, pk);
        case RemovePeer(_, pk) => RemovePeer(pk);
        case ModifyStake(_, _, _, _) => written := ModifyStake(origin, c);
        case Data(_, ns, d) => dbState := dbState[DataKey(ns, origin) := d];
        case Decision(_, _, _, _) =>
      }
    }

    method AddPeer(http: string, udp: string, pk: string)
      modifies this`mapPeer, this`mapHttp, this`mapUdp, this`quorumWeighted, this`dbState
      ensures forall n, origin ::
        LedgerView() == Apply(old(LedgerView()), Op(origin, Command.AddPeer(n, http, udp, pk)))
    {
      if pk in mapPeer {
        return;
      }
      var peer := Peer(pk, http, udp, 1);
      quorumWeighted := quorumWeighted + peer.stake;
      mapPeer := mapPeer[pk := peer];
      mapHttp := mapHttp[peer.http := pk];
      mapUdp := mapUdp[peer.udp := pk];
      dbState := dbState[PeerKey(pk) := IntText(peer.stake)];
    }

    method RemovePeer(pk: string)
      modifies this`mapPeer, this`mapHttp, this`mapUdp, this`quorumWeighted, this`dbState
      ensures forall n, origin :: LedgerView() == Apply(old(LedgerView()), Op(origin, Command.RemovePeer(n, pk)))
    {
      if pk !in mapPeer {
        return;
      }
      var peer := mapPeer[pk];
      quorumWeighted := quorumWeighted - peer.stake;
      mapPeer := mapPeer - {pk};
      mapHttp := mapHttp - {peer.http};
      mapUdp := mapUdp - {peer.udp};
      dbState := dbState - {PeerKey(pk)};
    }

    method ModifyStake(origin: string, command: Command) returns (written: Command)
      requires command.ModifyStake?
      modifies this`mapPeer, this`quorumWeighted, this`mapModifyStake, this`dbState, this`credited
      ensures LedgerView() == Apply(old(LedgerView()), Op(origin, command))
      ensures written == Written(old(LedgerView()), Op(origin, command))
      ensures credited == old(credited) +
        if Credited(old(LedgerView()), Op(origin, command), publicKey) then [origin] else []
    {
      hide Apply, Written, Tally;
      ghost var l := LedgerView();
      if command.publicKey !in mapPeer || command.publicKey == origin {
        VoteIgnored(l, origin, command);
        return command;
      }
      credited := credited + if command.publicKey == publicKey then [origin] else [];
      written := CountVote(origin, command);
    }

    /** A vote that is looked at enters its tally unless it repeats another, and may decide it. */
    method CountVote(origin: string, command: Command) returns (written: Command)
      requires command.ModifyStake? && Counts(LedgerView(), origin, command.publicKey)
      modifies this`mapPeer, this`quorumWeighted, this`mapModifyStake, this`dbState
      ensures LedgerView() == Apply(old(LedgerView()), Op(origin, command))
      ensures written == Written(old(LedgerView()), Op(origin, command))
    {
      hide QuorumOf, TallyKey, PeerKey, IntText, Apply, Written, Cut;
      ghost var l := LedgerView();
      var i := TallyKey(command.publicKey, command.ident, command.stake);
      var a := if i in mapModifyStake then mapModifyStake[i] else [];
      if origin in a {
        VoteIgnored(l, origin, command);
        return command;
      }
      a := a + [origin];
      mapModifyStake := mapModifyStake[i := a];
      var quorum := HasQuorumWeighted(mapPeer, quorumWeighted, a);
      if quorum {
        VoteDecides(l, origin, command, i, a);
        written := ChangeStake(command, i);
      } else {
        VoteCollected(l, origin, command, i, a);
        written := command;
      }
    }

    /** The decided change is cut, written back into the command and carried out; its tally is closed. */
    method ChangeStake(command: Command, i: string) returns (written: Command)
      requires command.ModifyStake? && command.publicKey in mapPeer
      modifies this`mapPeer, this`quorumWeighted, this`mapModifyStake, this`dbState
      ensures var p := old(mapPeer)[command.publicKey];
        var d := Cut(p.stake, command.stake);
        && written == command.(stake := d)
        && mapPeer == old(mapPeer)[command.publicKey := p.(stake := p.stake + d)]
        && quorumWeighted == old(quorumWeighted) + d && mapModifyStake == old(mapModifyStake) - {i}
        && dbState == old(dbState)[PeerKey(command.publicKey) := IntText(p.stake + d)]
      ensures var have := old(mapPeer)[command.publicKey].stake;
        var left := mapPeer[command.publicKey].stake;
        && left == (if have + command.stake < 0 then 0 else have + command.stake)
        && written.stake == left - have && quorumWeighted == old(quorumWeighted) + left - have
    {
      hide PeerKey, IntText;
      written := command;
      mapModifyStake := mapModifyStake - {i};
      var peer := mapPeer[command.publicKey];
      if peer.stake + command.stake < 0 {
        written := command.(stake := -1 * peer.stake);
      }
      quorumWeighted := quorumWeighted + written.stake;
      peer := peer.(stake := peer.stake + written.stake);
      mapPeer := mapPeer[command.publicKey := peer];
      dbState := dbState[PeerKey(command.publicKey) := IntText(peer.stake)];
    }

    method GetRange(first: int, last: int) returns (r: seq<Block>)
      requires Linked()
      ensures r == if stored == [] then [] else Served(base, stored, maxBlocks, maxQuery, first, last)
    {
      hide *;
      Holds(this);
      RangeBounds(height, maxQuery, first, last);
      var gte := if first <= height then (if first < 1 then 1 else first) else height;
      var lte := if last < 0 then gte else if last < 1 then height else last;
      lte := if lte <= height then lte else height;
      gte := if lte - gte > 0 then gte else lte;
      gte := if lte - gte >= maxQuery then lte - maxQuery + 1 else gte;
      r := Lookup(gte, lte, first, last);
    }

    /** The lookup between two bounds: in memory if both ends are there, else in the database. */
    method Lookup(gte: int, lte: int, ghost first: int, ghost last: int) returns (r: seq<Block>)
      requires Linked()
      requires gte == if height > 0 then RangeLo(height, maxQuery, first, last) else 0
      requires lte == if height > 0 then RangeHi(height, first, last) else 0
      ensures r == if stored == [] then [] else Served(base, stored, maxBlocks, maxQuery, first, last)
    {
      hide *;
      Holds(this);
      if height > 0 {
        LookupServes(base, stored, maxBlocks, maxQuery, first, last, gte, lte);
      } else {
        NothingToServe(base, stored, maxBlocks);
      }
      if OrderedMaps.Has(mapBlocks, gte) && OrderedMaps.Has(mapBlocks, lte) {
        var start := |mapBlocks| - height + gte - 1;
        var end := start + lte - gte + 1;
        return OrderedMaps.Values(mapBlocks)[start..end];
      }
      return Between(dbBlockchain, BlockKey(gte), BlockKey(lte));
    }

    method GetPage(page: int, size: int) returns (r: seq<Block>)
      requires Linked()
      ensures var n := PageSize(maxQuery, size);
        r == if stored == [] then []
        else Served(base, stored, maxBlocks, maxQuery, PageFrom(|stored|, page, n), PageFrom(|stored|, page, n) + n - 1)
    {
      hide Served, Window, LedgerAt, Certified, Latest, DbOf;
      var p := if page < 1 then 1 else page;
      var n := if size < 1 || size > maxQuery then maxQuery else size;
      var gte := height - p * n + 1;
      gte := if gte < 1 then 1 else gte;
      assert gte == PageFrom(|stored|, page, n) && n == PageSize(maxQuery, size);
      r := GetRange(gte, gte + n - 1);
    }
  }

  /**
   The window agrees with the database: in every state it holds the last blocks, as many as there are or as the limit
   allows, in order, each the stored one but for stakes that were cut.
   */
  lemma WindowAgrees(b: Blockchain)
    requires b.Linked()
    ensures b.height == |b.stored| == |b.dbBlockchain|
    ensures |b.mapBlocks| == if b.height < b.maxBlocks then b.height else b.maxBlocks
    ensures forall i :: 0 <= i < |b.dbBlockchain| ==> b.dbBlockchain[i] == (BlockKey(i + 1), b.stored[i])
    ensures forall j :: 0 <= j < |b.mapBlocks| ==>
      var h := b.height - |b.mapBlocks| + j + 1;
      b.mapBlocks[j].0 == h && b.mapBlocks[j].1.height == h && BlockSameUpToCut(b.mapBlocks[j].1, b.stored[h - 1])
  {
    hide Cached, BlockSameUpToCut, BlockKey, LedgerAt;
    var s := b.stored;
    forall i | 0 <= i < |s|
      ensures Cached(b.base, s, i).height == i + 1 && BlockSameUpToCut(Cached(b.base, s, i), s[i])
    {
      CachedSame(b.base, s, i);
    }
  }

  /** What a node holds. */
  lemma Holds(b: Blockchain)
    requires b.Linked()
    ensures b.maxBlocks >= 1 && b.maxQuery >= 1 && |b.stored| < Text.KEY_LIMIT && b.height == |b.stored|
    ensures b.mapBlocks == Window(b.base, b.stored, b.maxBlocks) && b.dbBlockchain == DbOf(b.stored)
  {
    hide Window, DbOf, Certified, LedgerAt, Latest;
  }

  lemma NothingToServe(base: Ledger, s: seq<Block>, max: nat)
    requires s == []
    ensures Between(DbOf(s), BlockKey(0), BlockKey(0)) == [] && !OrderedMaps.Has(Window(base, s, max), 0)
  {
  }

  lemma RangeBounds(height: int, query: int, first: int, last: int)
    requires height >= 0 && query >= 1
    ensures
      var gte := if first <= height then (if first < 1 then 1 else first) else height;
      var lte := if last < 0 then gte else if last < 1 then height else last;
      var top := if lte <= height then lte else height;
      var low := if top - gte > 0 then gte else top;
      && top == (if height > 0 then RangeHi(height, first, last) else 0)
      && (if top - low >= query then top - query + 1 else low) ==
         (if height > 0 then RangeLo(height, query, first, last) else 0)
  {
  }

  lemma UpdateCacheKeeps(c: Chain, b: Block, max: nat)
    ensures UpdateCache(c, b, max).ledger == c.ledger && UpdateCache(c, b, max).db == c.db
    ensures UpdateCache(c, b, max).height == b.height
  {
  }

  lemma NothingCertified(env: Env, base: Ledger)
    ensures Numbered([]) && Certified(env, base, []) && DbOf([]) == []
  {
  }

  lemma NothingStored(base: Ledger, s: seq<Block>, max: nat)
    ensures ChainOf(base, [], max).(db := DbOf(s)) == Chain(0, [], None, base, DbOf(s))
    ensures ChainOf(base, s, max).(db := DbOf(s)) == ChainOf(base, s, max)
    ensures OrderedMaps.Values(DbOf(s)) == s
  {
  }

  /** The block object in memory and the stored block agree on everything the next round looks at. */
  lemma TipFacts(b: Blockchain)
    requires b.Valid() && b.stored != []
    ensures var tip := b.stored[|b.stored| - 1];
      && b.height == |b.stored| == tip.height && b.latestBlock.Some? && |b.stored| < Text.KEY_LIMIT
      && b.latestBlock.value.(tx := []) == tip.(tx := []) && b.LedgerView() == LedgerAt(b.base, b.stored)
  {
  }

  lemma ValidIsLinked(b: Blockchain)
    requires b.Valid()
    ensures b.Linked()
  {
  }

  lemma LatestHash(base: Ledger, s: seq<Block>)
    ensures Latest(base, s).Some? <==> s != []
    ensures s != [] ==> Latest(base, s).value.hash == s[|s| - 1].hash
  {
  }

  lemma NumberedAt(s: seq<Block>, i: nat)
    requires Numbered(s) && i < |s|
    ensures Numbered(s[..i]) && s[i].height == i + 1 < Text.KEY_LIMIT
  {
  }

  lemma NumberedExtends(s: seq<Block>, b: Block)
    requires Numbered(s) && b.height == |s| + 1 < Text.KEY_LIMIT
    ensures Numbered(s + [b])
  {
  }

  lemma CertifiedExtends(env: Env, base: Ledger, s: seq<Block>, b: Block)
    requires Certified(env, base, s) && Acceptable(env, base, s, b)
    ensures Certified(env, base, s + [b])
  {
    forall i | 1 <= i < |s + [b]| ensures Acceptable(env, base, (s + [b])[..i], (s + [b])[i]) {
      assert (s + [b])[..i] == if i < |s| then s[..i] else s;
    }
  }

  lemma WindowHas(base: Ledger, s: seq<Block>, max: nat, h: int)
    requires max >= 1 && 1 <= h <= |s|
    ensures OrderedMaps.Has(Window(base, s, max), h) <==> h > |s| - WindowSize(s, max)
  {
    var w := Window(base, s, max);
    if h > |s| - WindowSize(s, max) {
      assert w[h - 1 - (|s| - WindowSize(s, max))].0 == h;
    }
  }

  /**
   A node that was reset once is indistinguishable, after a restart, from the node that kept running: a fresh
   object reads the same height, window, peers, weight, address maps, tallies and state store from the database.
   */
  method Restart(running: Blockchain) returns (restarted: Blockchain)
    requires running.Valid() && running.base == EMPTY
    ensures fresh(restarted) && restarted.Valid()
    ensures restarted.View() == running.View() && restarted.stored == running.stored
  {
    restarted := new Blockchain(running.env, running.publicKey, running.maxBlocks, running.maxQuery,
      running.dbBlockchain);
    restarted.Init(running.stored);
  }
}
