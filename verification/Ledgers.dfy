/**
 The replicated state the commands of a chain fold into: peers with their stake, address maps, total weight,
 pending stake tallies and the key/value state store.
 */
module Ledgers {
  import opened Text
  import opened Types
  import opened Weights

  datatype Ledger = Ledger(
    peers: map<string, Peer>,
    http: map<string, string>,
    udp: map<string, string>,
    weight: int,
    tallies: map<string, seq<string>>,
    store: map<string, string>)

  const EMPTY := Ledger(map[], map[], map[], 0, map[], map[])

  /** One executed command together with the origin of its transaction. */
  datatype Op = Op(origin: string, command: Command)

  function PeerKey(pk: string): string {
    "peer:" + pk
  }

  function DataKey(ns: string, origin: string): string {
    ns + ":" + origin
  }

  function TallyKey(pk: string, ident: string, stake: int): string {
    pk + ident + IntText(stake)
  }

  function Tally(l: Ledger, key: string): seq<string> {
    if key in l.tallies then l.tallies[key] else []
  }

  /** The vote is looked at: the target is a peer and nobody votes for himself. */
  predicate Counts(l: Ledger, origin: string, target: string) {
    target in l.peers && target != origin
  }

  /** This vote completes the tally. */
  predicate Decides(l: Ledger, origin: string, c: Command)
    requires c.ModifyStake?
  {
    var a := Tally(l, TallyKey(c.publicKey, c.ident, c.stake));
    Counts(l, origin, c.publicKey) && origin !in a && QuorumOf(l.peers, l.weight, a + [origin])
  }

  /** A stake never drops below zero: the change is cut to what is there. */
  function Cut(have: int, change: int): int {
    if have + change < 0 then -have else change
  }

  function Apply(l: Ledger, op: Op): Ledger {
    match op.command
    case AddPeer(_, http, udp, pk) =>
      if pk in l.peers then l
      else Ledger(l.peers[pk := Peer(pk, http, udp, 1)], l.http[http := pk], l.udp[udp := pk], l.weight + 1,
                  l.tallies, l.store[PeerKey(pk) := IntText(1)])
    case RemovePeer(_, pk) =>
      if pk !in l.peers then l
      else
        var p := l.peers[pk];
        Ledger(l.peers - {pk}, l.http - {p.http}, l.udp - {p.udp}, l.weight - p.stake, l.tallies,
               l.store - {PeerKey(pk)})
    case ModifyStake(_, pk, ident, stake) =>
      var key := TallyKey(pk, ident, stake);
      if !Counts(l, op.origin, pk) || op.origin in Tally(l, key) then l
      else if !Decides(l, op.origin, op.command) then
        l.(tallies := l.tallies[key := Tally(l, key) + [op.origin]])
      else
        var p := l.peers[pk];
        var d := Cut(p.stake, stake);
        l.(tallies := l.tallies - {key}, weight := l.weight + d, peers := l.peers[pk := p.(stake := p.stake + d)],
           store := l.store[PeerKey(pk) := IntText(p.stake + d)])
    case Data(_, ns, d) => l.(store := l.store[DataKey(ns, op.origin) := d])
    case Decision(_, _, _, _) => l
  }

  /** The command object after its execution: a cut stake change is written back into it. */
  function Written(l: Ledger, op: Op): Command {
    if op.command.ModifyStake? && Decides(l, op.origin, op.command) then
      op.command.(stake := Cut(l.peers[op.command.publicKey].stake, op.command.stake))
    else op.command
  }

  function ApplyAll(l: Ledger, ops: seq<Op>): Ledger {
    if ops == [] then l else Apply(ApplyAll(l, ops[..|ops| - 1]), ops[|ops| - 1])
  }

  function OpsOf(origin: string, commands: seq<Command>): seq<Op> {
    seq(|commands|, i requires 0 <= i < |commands| => Op(origin, commands[i]))
  }

  function Ops(txs: seq<Tx>): seq<Op> {
    if txs == [] then []
    else Ops(txs[..|txs| - 1]) + OpsOf(txs[|txs| - 1].origin, txs[|txs| - 1].commands)
  }

  function WrittenCommands(l: Ledger, origin: string, commands: seq<Command>): (r: seq<Command>)
    ensures |r| == |commands|
  {
    seq(|commands|, i requires 0 <= i < |commands| =>
      Written(ApplyAll(l, OpsOf(origin, commands[..i])), Op(origin, commands[i])))
  }

  /** The transactions of a block as the block object holds them after it was executed on l. */
  function WrittenTxs(l: Ledger, txs: seq<Tx>): (r: seq<Tx>)
    ensures |r| == |txs|
  {
    seq(|txs|, i requires 0 <= i < |txs| =>
      txs[i].(commands := WrittenCommands(ApplyAll(l, Ops(txs[..i])), txs[i].origin, txs[i].commands)))
  }

  /** `clear`: peers and the stored state go, everything else stays. */
  function Cleared(l: Ledger): Ledger {
    l.(peers := map[], store := map[])
  }

  lemma {:induction false} ApplyAllConcat(l: Ledger, a: seq<Op>, b: seq<Op>)
    ensures ApplyAll(l, a + b) == ApplyAll(ApplyAll(l, a), b)
  {
    if b == [] {
      assert a + b == a;
    } else {
      assert (a + b)[..|a + b| - 1] == a + b[..|b| - 1];
      ApplyAllConcat(l, a, b[..|b| - 1]);
    }
  }

  // ---------- what every run keeps ----------

  predicate OpOk(op: Op) {
    IsKey(op.origin) && CommandOk(op.command)
  }

  /** The target of a tally is the fixed-length prefix of its key. */
  function TargetOf(key: string): string
    requires |key| >= 43
  {
    key[..43]
  }

  ghost predicate KeysSized(peers: map<string, Peer>) {
    forall pk :: pk in peers ==> |pk| == 43
  }

  ghost predicate PeersSound(l: Ledger) {
    && NonNegative(l.peers) && KeysSized(l.peers)
    && forall pk :: pk in l.peers ==> l.peers[pk].publicKey == pk
  }

  ghost predicate TalliesSound(l: Ledger) {
    forall k :: k in l.tallies ==>
      |k| >= 43 && l.tallies[k] != [] && Distinct(l.tallies[k]) && TargetOf(k) !in l.tallies[k]
  }

  /** `surplus` is the weight recorded at the last clear: total stake and recorded weight differ by it for ever. */
  ghost predicate Sound(l: Ledger, surplus: int) {
    PeersSound(l) && TalliesSound(l) && surplus >= 0 && l.weight == Total(l.peers) + surplus
  }

  /** What the state store must answer for a key: a current stake, the last value of an origin, or nothing. */
  function Expected(peers: map<string, Peer>, data: map<(string, string), string>, k: string): Option<string> {
    if |k| == 48 && k[..5] == "peer:" then
      if k[5..] in peers then Some(IntText(peers[k[5..]].stake)) else None
    else if |k| >= 44 && k[|k| - 44] == ':' && (k[..|k| - 44], k[|k| - 43..]) in data then
      Some(data[(k[..|k| - 44], k[|k| - 43..])])
    else None
  }

  function Read(store: map<string, string>, k: string): Option<string> {
    if k in store then Some(store[k]) else None
  }

  ghost predicate Mirrors(peers: map<string, Peer>, data: map<(string, string), string>, store: map<string, string>) {
    forall k :: Read(store, k) == Expected(peers, data, k)
  }

  /** The last value written per (namespace, origin): the reference the state store is measured against. */
  function LastData(data: map<(string, string), string>, op: Op): map<(string, string), string> {
    if op.command.Data? then data[(op.command.ns, op.origin) := op.command.d] else data
  }

  predicate HasColon(s: string) {
    s != "" && (s[0] == ':' || HasColon(s[1..]))
  }

  lemma {:induction false} HasColonAt(s: string, i: nat)
    requires i < |s| && s[i] == ':'
    ensures HasColon(s)
  {
    if i > 0 {
      HasColonAt(s[1..], i - 1);
    }
  }

  lemma NamespaceHasColon(ns: string)
    requires IsNamespace(ns, 4)
    ensures HasColon(ns)
  {
    var i :| 4 <= i <= 15 && i < |ns| && ns[i] == ':';
    HasColonAt(ns, i);
  }

  /** A stake is read under its peer's key ... */
  lemma ExpectedStake(peers: map<string, Peer>, data: map<(string, string), string>, pk: string)
    requires |pk| == 43
    ensures Expected(peers, data, PeerKey(pk)) == if pk in peers then Some(IntText(peers[pk].stake)) else None
  {
    assert PeerKey(pk)[..5] == "peer:" && PeerKey(pk)[5..] == pk;
  }

  /** ... and a value under its namespace and origin: the schema keeps the two families of keys apart. */
  lemma ExpectedValue(peers: map<string, Peer>, data: map<(string, string), string>, ns: string, origin: string)
    requires HasColon(ns) && |origin| == 43
    ensures Expected(peers, data, DataKey(ns, origin)) ==
            if (ns, origin) in data then Some(data[(ns, origin)]) else None
  {
    var k := DataKey(ns, origin);
    assert k[..|k| - 44] == ns && k[|k| - 43..] == origin;
    assert !HasColon("peer");
    assert k[..5] == "peer:" ==> k[..5][..4] == "peer";
    assert |ns| == 4 ==> k[..5][..4] == ns;
  }

  lemma SetPeerSound(l: Ledger, pk: string, p: Peer)
    requires PeersSound(l) && |pk| == 43 && p.publicKey == pk && p.stake >= 0
    ensures PeersSound(l.(peers := l.peers[pk := p]))
    ensures Total(l.peers[pk := p]) == Total(l.peers) - Stake(l.peers, pk) + p.stake
  {
    TotalAfterSet(l.peers, pk, p);
  }

  lemma DropPeerSound(l: Ledger, pk: string)
    requires PeersSound(l) && pk in l.peers
    ensures PeersSound(l.(peers := l.peers - {pk}))
    ensures Total(l.peers - {pk}) == Total(l.peers) - l.peers[pk].stake
  {
    TotalAfterRemove(l.peers, pk);
  }

  lemma PeerSound(l: Ledger, pk: string)
    requires PeersSound(l) && pk in l.peers
    ensures l.peers[pk].stake >= 0 && l.peers[pk].publicKey == pk
  {
  }

  lemma SamePeersSound(l: Ledger, m: Ledger)
    requires PeersSound(l) && l.peers == m.peers
    ensures PeersSound(m)
  {
  }

  lemma {:induction false} PeersStep(l: Ledger, surplus: int, op: Op)
    requires Sound(l, surplus) && OpOk(op)
    ensures PeersSound(Apply(l, op)) && Apply(l, op).weight == Total(Apply(l, op).peers) + surplus
  {
    hide PeersSound, TalliesSound, Apply;
    var next := Apply(l, op);
    match op.command
    case AddPeer(_, http, udp, pk) =>
      AddPeerIs(l, op);
      if pk !in l.peers {
        SetPeerSound(l, pk, Peer(pk, http, udp, 1));
        SamePeersSound(l.(peers := next.peers), next);
      }
    case RemovePeer(_, pk) =>
      RemovePeerIs(l, op);
      if pk in l.peers {
        DropPeerSound(l, pk);
        SamePeersSound(l.(peers := next.peers), next);
      }
    case ModifyStake(_, pk, ident, stake) =>
      ModifyStakeIs(l, op);
      if Decides(l, op.origin, op.command) {
        var p := l.peers[pk];
        PeerSound(l, pk);
        SetPeerSound(l, pk, p.(stake := p.stake + Cut(p.stake, stake)));
      }
      SamePeersSound(l.(peers := next.peers), next);
    case Data(_, _, _) =>
      OtherwiseIs(l, op);
      SamePeersSound(l, next);
    case Decision(_, _, _, _) =>
      OtherwiseIs(l, op);
  }

  // What each kind of command does to peers and weight.

  lemma AddPeerIs(l: Ledger, op: Op)
    requires op.command.AddPeer?
    ensures var c, next := op.command, Apply(l, op);
      && (c.publicKey in l.peers ==> next == l)
      && (c.publicKey !in l.peers ==>
            next.peers == l.peers[c.publicKey := Peer(c.publicKey, c.http, c.udp, 1)] && next.weight == l.weight + 1)
  {
  }

  lemma RemovePeerIs(l: Ledger, op: Op)
    requires op.command.RemovePeer?
    ensures var pk, next := op.command.publicKey, Apply(l, op);
      && (pk !in l.peers ==> next == l)
      && (pk in l.peers ==> next.peers == l.peers - {pk} && next.weight == l.weight - l.peers[pk].stake)
  {
  }

  lemma ModifyStakeIs(l: Ledger, op: Op)
    requires op.command.ModifyStake?
    ensures var c, next := op.command, Apply(l, op);
      && (!Decides(l, op.origin, c) ==> next.peers == l.peers && next.weight == l.weight)
      && (Decides(l, op.origin, c) ==>
            c.publicKey in l.peers &&
            var p := l.peers[c.publicKey];
            var d := Cut(p.stake, c.stake);
            next.peers == l.peers[c.publicKey := p.(stake := p.stake + d)] && next.weight == l.weight + d)
  {
    hide QuorumOf, TallyKey;
  }

  lemma OtherwiseIs(l: Ledger, op: Op)
    requires op.command.Data? || op.command.Decision?
    ensures Apply(l, op).peers == l.peers && Apply(l, op).weight == l.weight
    ensures op.command.Decision? ==> Apply(l, op) == l
  {
  }

  lemma TallyTarget(pk: string, ident: string, stake: int)
    requires |pk| == 43
    ensures |TallyKey(pk, ident, stake)| >= 43 && TargetOf(TallyKey(pk, ident, stake)) == pk
  {
  }

  lemma DistinctSnoc(a: seq<string>, x: string)
    ensures Distinct(a + [x]) <==> Distinct(a) && x !in a
  {
    var b := a + [x];
    assert b[|a|] == x && b[..|a|] == a;
    if x in a {
      var i :| 0 <= i < |a| && a[i] == x;
      assert b[i] == b[|a|];
    }
    if Distinct(b) {
      forall i, j | 0 <= i < j < |a| ensures a[i] != a[j] {
        assert b[i] != b[j];
      }
    }
  }

  lemma TalliesStep(l: Ledger, op: Op)
    requires TalliesSound(l) && OpOk(op)
    ensures TalliesSound(Apply(l, op))
  {
    hide TallyKey, Distinct, QuorumOf, IntText, TargetOf;
    if op.command.ModifyStake? {
      var c := op.command;
      var a := Tally(l, TallyKey(c.publicKey, c.ident, c.stake));
      TallyTarget(c.publicKey, c.ident, c.stake);
      DistinctSnoc(a, op.origin);
      NobodyTwice();
    }
  }

  lemma NobodyTwice()
    ensures Distinct<string>([])
  {
  }

  /** Every command keeps weight, stakes and tallies in order. */
  lemma SoundStep(l: Ledger, surplus: int, op: Op)
    requires Sound(l, surplus) && OpOk(op)
    ensures Sound(Apply(l, op), surplus)
  {
    PeersStep(l, surplus, op);
    TalliesStep(l, op);
  }

  lemma MirrorsSetPeer(peers: map<string, Peer>, data: map<(string, string), string>, store: map<string, string>,
                       pk: string, p: Peer)
    requires Mirrors(peers, data, store) && |pk| == 43
    ensures Mirrors(peers[pk := p], data, store[PeerKey(pk) := IntText(p.stake)])
  {
    var nextPeers, nextStore := peers[pk := p], store[PeerKey(pk) := IntText(p.stake)];
    forall k ensures Read(nextStore, k) == Expected(nextPeers, data, k) {
      ExpectedStake(nextPeers, data, pk);
      assert Read(store, k) == Expected(peers, data, k);
      assert |k| == 48 && k[..5] == "peer:" && k[5..] == pk ==> k == PeerKey(pk);
    }
  }

  lemma MirrorsDropPeer(peers: map<string, Peer>, data: map<(string, string), string>, store: map<string, string>,
                        pk: string)
    requires Mirrors(peers, data, store) && |pk| == 43
    ensures Mirrors(peers - {pk}, data, store - {PeerKey(pk)})
  {
    var nextPeers, nextStore := peers - {pk}, store - {PeerKey(pk)};
    forall k ensures Read(nextStore, k) == Expected(nextPeers, data, k) {
      ExpectedStake(nextPeers, data, pk);
      assert Read(store, k) == Expected(peers, data, k);
      assert |k| == 48 && k[..5] == "peer:" && k[5..] == pk ==> k == PeerKey(pk);
    }
  }

  lemma MirrorsSetData(peers: map<string, Peer>, data: map<(string, string), string>, store: map<string, string>,
                       ns: string, origin: string, d: string)
    requires Mirrors(peers, data, store) && HasColon(ns) && |origin| == 43
    ensures Mirrors(peers, data[(ns, origin) := d], store[DataKey(ns, origin) := d])
  {
    var next, nextStore := data[(ns, origin) := d], store[DataKey(ns, origin) := d];
    forall k ensures Read(nextStore, k) == Expected(peers, next, k) {
      ExpectedValue(peers, next, ns, origin);
      assert Read(store, k) == Expected(peers, data, k);
      assert |k| >= 44 && k[|k| - 44] == ':' && k[..|k| - 44] == ns && k[|k| - 43..] == origin ==>
          k == DataKey(ns, origin);
    }
  }

  /** The state store mirrors peers and data after every command. */
  lemma MirrorsStep(l: Ledger, data: map<(string, string), string>, op: Op)
    requires PeersSound(l) && Mirrors(l.peers, data, l.store) && OpOk(op)
    ensures Mirrors(Apply(l, op).peers, LastData(data, op), Apply(l, op).store)
  {
    hide Mirrors, Expected, IntText, IsNamespace, HasColon, QuorumOf, TallyKey, NonNegative;
    match op.command
    case AddPeer(_, http, udp, pk) =>
      MirrorsSetPeer(l.peers, data, l.store, pk, Peer(pk, http, udp, 1));
    case RemovePeer(_, pk) =>
      MirrorsDropPeer(l.peers, data, l.store, pk);
    case ModifyStake(_, pk, ident, stake) =>
      if Decides(l, op.origin, op.command) {
        var p := l.peers[pk];
        MirrorsSetPeer(l.peers, data, l.store, pk, p.(stake := p.stake + Cut(p.stake, stake)));
      }
    case Data(_, ns, d) =>
      NamespaceHasColon(ns);
      MirrorsSetData(l.peers, data, l.store, ns, op.origin, d);
    case Decision(_, _, _, _) =>
  }

  // ---------- runs ----------

  /**
   One step of a run: a single command, so that several blocks may interleave between commands, or a clear. A clear is
   taken as a whole, although it awaits the two databases before the peers go.
   */
  datatype Step = Execute(op: Op) | Clear

  /** A ledger with its reference book-keeping: the weight at the last clear and the last data values since. */
  datatype Tracked = Tracked(l: Ledger, surplus: int, data: map<(string, string), string>)

  const START := Tracked(EMPTY, 0, map[])

  function Next(t: Tracked, step: Step): Tracked {
    match step
    case Execute(op) => Tracked(Apply(t.l, op), t.surplus, LastData(t.data, op))
    case Clear => Tracked(Cleared(t.l), t.l.weight, map[])
  }

  function Run(steps: seq<Step>): Tracked {
    if steps == [] then START else Next(Run(steps[..|steps| - 1]), steps[|steps| - 1])
  }

  predicate StepsOk(steps: seq<Step>) {
    forall i :: 0 <= i < |steps| && steps[i].Execute? ==> OpOk(steps[i].op)
  }

  ghost predicate InOrder(t: Tracked) {
    Sound(t.l, t.surplus) && Mirrors(t.l.peers, t.data, t.l.store)
  }

  lemma StartInOrder()
    ensures InOrder(START)
  {
    var none: map<string, Peer> := map[];
    NoPeersNoWeight({});
    assert none.Keys == {};
    forall k ensures Read(EMPTY.store, k) == Expected(EMPTY.peers, START.data, k) {
    }
  }

  lemma NextInOrder(t: Tracked, step: Step)
    requires InOrder(t) && (step.Execute? ==> OpOk(step.op))
    ensures InOrder(Next(t, step))
  {
    match step
    case Execute(op) =>
      SoundStep(t.l, t.surplus, op);
      MirrorsStep(t.l, t.data, op);
    case Clear =>
      SetWeightBounds(t.l.peers, {});
  }

  /**
   Weight conservation and the mirrored state store, over every run of commands, in any interleaving, and clears:
   the recorded weight is the stake of the peers plus the weight at the last clear, no stake is negative, and the
   store answers every key with the current stake or the last data value, and holds nothing else.
   */
  lemma {:induction false} EveryRun(steps: seq<Step>)
    requires StepsOk(steps)
    ensures InOrder(Run(steps))
  {
    if steps == [] {
      StartInOrder();
    } else {
      var front, last := steps[..|steps| - 1], steps[|steps| - 1];
      assert last.Execute? ==> OpOk(last.op);
      EveryRun(front);
      NextInOrder(Run(front), last);
    }
  }

  /** What the store answers in every state of a run: the stake of a current peer, or the last value of an origin. */
  lemma StoreAnswers(t: Tracked, pk: string, ns: string, origin: string)
    requires InOrder(t) && |pk| == 43 && |origin| == 43 && IsNamespace(ns, 4)
    ensures Read(t.l.store, PeerKey(pk)) == if pk in t.l.peers then Some(IntText(t.l.peers[pk].stake)) else None
    ensures Read(t.l.store, DataKey(ns, origin)) ==
            if (ns, origin) in t.data then Some(t.data[(ns, origin)]) else None
  {
    hide IsNamespace, Expected, Sound;
    NamespaceHasColon(ns);
    ExpectedStake(t.l.peers, t.data, pk);
    ExpectedValue(t.l.peers, t.data, ns, origin);
  }

  /** A ledger that was never cleared records exactly the stake of its peers. */
  lemma {:induction false} ApplyAllSound(l: Ledger, surplus: int, ops: seq<Op>)
    requires Sound(l, surplus) && forall i :: 0 <= i < |ops| ==> OpOk(ops[i])
    ensures Sound(ApplyAll(l, ops), surplus)
  {
    if ops != [] {
      ApplyAllSound(l, surplus, ops[..|ops| - 1]);
      SoundStep(ApplyAll(l, ops[..|ops| - 1]), surplus, ops[|ops| - 1]);
    }
  }

  lemma {:induction false} OpsOk(txs: seq<Tx>)
    requires KeysOk(txs)
    ensures forall i :: 0 <= i < |Ops(txs)| ==> OpOk(Ops(txs)[i])
  {
    if txs != [] {
      OpsOk(txs[..|txs| - 1]);
    }
  }

  // ---------- stake changes ----------

  /**
   A vote changes a stake exactly if it completes a tally of distinct origins, none of them the target, that hold
   more than half of the recorded weight, and something is left to change; no other stake moves.
   */
  lemma StakeChangeNeedsQuorum(l: Ledger, surplus: int, op: Op, pk: string)
    requires Sound(l, surplus) && OpOk(op) && op.command.ModifyStake?
    ensures var c := op.command; var voters := Tally(l, TallyKey(c.publicKey, c.ident, c.stake)) + [op.origin];
      Stake(Apply(l, op).peers, pk) != Stake(l.peers, pk) <==>
        && pk == c.publicKey && pk in l.peers && Distinct(voters) && pk !in voters
        && QuorumOf(l.peers, l.weight, voters)
        && Cut(l.peers[pk].stake, c.stake) != 0
  {
    hide TallyKey, Distinct, QuorumOf, IntText, TargetOf, NonNegative, Total;
    var c := op.command;
    var a := Tally(l, TallyKey(c.publicKey, c.ident, c.stake));
    TallyTarget(c.publicKey, c.ident, c.stake);
    DistinctSnoc(a, op.origin);
    NobodyTwice();
  }

  /** Who is looked at, has not voted and completes a majority by this vote decides. */
  predicate Completes(l: Ledger, origin: string, c: Command)
    requires c.ModifyStake?
  {
    var voters := Tally(l, TallyKey(c.publicKey, c.ident, c.stake));
    && c.publicKey in l.peers && c.publicKey != origin && origin !in voters
    && 2 * ListWeight(l.peers, voters + [origin]) > l.weight
  }

  /**
   What a deciding vote leaves: the stake asked for, or none if more was asked for than there is; the recorded weight
   and the command move by the same difference, and nobody else's stake moves. Any other vote moves nothing.
   */
  lemma DecidedStake(l: Ledger, op: Op, pk: string)
    requires op.command.ModifyStake?
    ensures var c, m, w := op.command, Apply(l, op), Written(l, op);
      var have, left := Stake(l.peers, pk), Stake(m.peers, pk);
      if pk == c.publicKey && Completes(l, op.origin, c) then
        && left == (if have + c.stake < 0 then 0 else have + c.stake)
        && m.weight == l.weight + left - have && w == c.(stake := left - have)
      else left == have && (!Completes(l, op.origin, c) ==> m.weight == l.weight && w == c)
  {
    hide TallyKey, IntText, ListWeight;
  }

  /** A peer that holds at least half of the recorded weight cannot have its stake voted away or up. */
  lemma MajorityPeerIsImmune(l: Ledger, surplus: int, op: Op, pk: string)
    requires Sound(l, surplus) && OpOk(op) && op.command.ModifyStake?
    requires 2 * Stake(l.peers, pk) >= l.weight
    ensures Stake(Apply(l, op).peers, pk) == Stake(l.peers, pk)
  {
    StakeChangeNeedsQuorum(l, surplus, op, pk);
    var c := op.command;
    var voters := Tally(l, TallyKey(c.publicKey, c.ident, c.stake)) + [op.origin];
    if Distinct(voters) && pk !in voters {
      NoQuorumWithout(l.peers, l.weight, voters, pk);
    }
  }

  /** Quorum is out of reach for good voters exactly when the surplus left by a clear is as large as all stakes. */
  lemma SurplusBlocksQuorum(l: Ledger, surplus: int)
    requires Sound(l, surplus)
    ensures (exists a :: Distinct(a) && QuorumOf(l.peers, l.weight, a)) <==> surplus < Total(l.peers)
  {
    QuorumReachable(l.peers, l.weight);
  }
}
