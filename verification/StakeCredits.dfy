/** The server's stake credits: who may be proposed for more stake, and how the proposals are batched. */
module StakeCredits {
  import opened Types

  function Count(s: seq<string>, x: string): nat {
    if s == [] then 0 else Count(s[..|s| - 1], x) + if s[|s| - 1] == x then 1 else 0
  }

  lemma CountSnoc(s: seq<string>, y: string)
    ensures forall x :: Count(s + [y], x) == Count(s, x) + if x == y then 1 else 0
  {
    assert (s + [y])[..|s|] == s;
  }

  function Credit(credits: map<string, int>, x: string): int {
    if x in credits then credits[x] else 0
  }

  /** A proposal as it was accepted: the peer, the reason and the change. */
  datatype Proposal = Proposal(pk: string, ident: string, stake: int)

  /** The peers of proposals, in order. */
  function Peers(proposals: seq<Proposal>): (r: seq<string>)
    ensures |r| == |proposals|
  {
    seq(|proposals|, i requires 0 <= i < |proposals| => proposals[i].pk)
  }

  lemma PeersSnoc(proposals: seq<Proposal>, p: Proposal)
    ensures Peers(proposals + [p]) == Peers(proposals) + [p.pk]
  {
  }

  /** All commands of a sequence of transactions, in order. */
  function Flat(batches: seq<seq<Command>>): seq<Command> {
    if batches == [] then [] else Flat(batches[..|batches| - 1]) + batches[|batches| - 1]
  }

  predicate Asks(c: Command, p: Proposal) {
    c.ModifyStake? && c.publicKey == p.pk && c.ident == p.ident && c.stake == p.stake
  }

  lemma NumberedAsks(c: Command, n: int, p: Proposal)
    ensures Asks(c.(seqNo := n), p) <==> Asks(c, p)
  {
  }

  /** The commands ask for exactly these proposals, in this order. */
  predicate AskFor(commands: seq<Command>, proposals: seq<Proposal>) {
    |commands| == |proposals| && forall i :: 0 <= i < |commands| ==> Asks(commands[i], proposals[i])
  }

  /** Every transaction numbers its commands from one. */
  predicate AllNumbered(batches: seq<seq<Command>>) {
    forall b, i :: 0 <= b < |batches| && 0 <= i < |batches[b]| ==> batches[b][i].seqNo == i + 1
  }

  lemma AskForSnoc(sent: seq<Command>, queue: seq<Command>, proposals: seq<Proposal>, p: Proposal)
    requires AskFor(sent + queue, proposals)
    ensures AskFor(sent + (queue + [ModifyStake(0, p.pk, p.ident, p.stake)]), proposals + [p])
  {
    assert sent + (queue + [ModifyStake(0, p.pk, p.ident, p.stake)]) ==
           (sent + queue) + [ModifyStake(0, p.pk, p.ident, p.stake)];
  }

  /** Sending the queue off, numbered, asks for the same. */
  lemma AskForBatch(batches: seq<seq<Command>>, queue: seq<Command>, batch: seq<Command>, proposals: seq<Proposal>)
    requires AskFor(Flat(batches) + queue, proposals) && AllNumbered(batches)
    requires |batch| == |queue| && forall i :: 0 <= i < |queue| ==> batch[i] == queue[i].(seqNo := i + 1)
    ensures AskFor(Flat(batches + [batch]) + [], proposals) && AllNumbered(batches + [batch])
  {
    assert (batches + [batch])[..|batches|] == batches;
    var was, now := Flat(batches) + queue, Flat(batches + [batch]) + [];
    var n := |Flat(batches)|;
    assert now == Flat(batches) + batch;
    forall i | 0 <= i < |now| ensures Asks(now[i], proposals[i]) {
      assert Asks(was[i], proposals[i]);
      if i >= n {
        assert now[i] == batch[i - n] && was[i] == queue[i - n];
        NumberedAsks(was[i], i - n + 1, proposals[i]);
      }
    }
  }

  predicate Queued(queue: seq<Command>, pk: string, ident: string) {
    exists i :: 0 <= i < |queue| && queue[i].ModifyStake? && queue[i].publicKey == pk && queue[i].ident == ident
  }

  /** Every queued command proposes a stake, and no two propose the same peer for the same reason. */
  predicate QueueOk(queue: seq<Command>) {
    && (forall i :: 0 <= i < |queue| ==> queue[i].ModifyStake?)
    && forall i, j :: 0 <= i < j < |queue| ==>
         (queue[i].publicKey, queue[i].ident) != (queue[j].publicKey, queue[j].ident)
  }

  lemma NoProposals()
    ensures Peers([]) == [] && Flat([]) == [] && AskFor([], []) && AllNumbered([])
  {
  }

  lemma QueueEmpty()
    ensures QueueOk([])
  {
  }

  lemma QueueSnoc(queue: seq<Command>, pk: string, ident: string, stake: int)
    requires QueueOk(queue) && !Queued(queue, pk, ident)
    ensures QueueOk(queue + [ModifyStake(0, pk, ident, stake)])
  {
  }

  /** The commands of one transaction are numbered from one. */
  function Renumbered(commands: seq<Command>): (r: seq<Command>)
    ensures |r| == |commands| && forall i :: 0 <= i < |r| ==> r[i].seqNo == i + 1
  {
    seq(|commands|, i requires 0 <= i < |commands| => commands[i].(seqNo := i + 1))
  }

  class Server {
    var mapStakeCredit: map<string, int>
    var stackModifyStake: seq<Command>
    /** The peers ever seen online; it only grows. */
    var online: set<string>
    /** The transactions handed to the block factory. */
    var stackedTx: seq<seq<Command>>

    /** The votes for the local node, and the proposals accepted, by peer and in order. */
    ghost var votes: seq<string>
    ghost var accepted: seq<Proposal>

    /**
     A peer's credit is its votes for this node minus the proposals accepted for it; whoever was proposed at all is
     in debt by less than a third of the online peers; what was handed over and what is queued are the accepted
     proposals, each once and in order; and the queue is shorter than that third.
     */
    ghost predicate Valid()
      reads this
    {
      && (forall x :: Credit(mapStakeCredit, x) == Count(votes, x) - Count(Peers(accepted), x))
      && (forall x :: Count(Peers(accepted), x) > 0 ==> 3 * (Count(Peers(accepted), x) - Count(votes, x)) < |online|)
      && AskFor(Flat(stackedTx) + stackModifyStake, accepted) && AllNumbered(stackedTx)
      && QueueOk(stackModifyStake)
      && (stackModifyStake == [] || 3 * |stackModifyStake| < |online|)
    }

    constructor ()
      ensures Valid() && votes == [] && accepted == [] && stackModifyStake == [] && stackedTx == [] && online == {}
    {
      mapStakeCredit, stackModifyStake, online, stackedTx, votes, accepted := map[], [], {}, [], [], [];
    }

    method IncStakeCredit(pk: string)
      requires Valid()
      modifies this
      ensures Valid() && votes == old(votes) + [pk] && accepted == old(accepted)
      ensures stackModifyStake == old(stackModifyStake) && stackedTx == old(stackedTx) && online == old(online)
    {
      hide QueueOk, Count, AskFor, AllNumbered, Flat, Peers;
      CountSnoc(votes, pk);
      mapStakeCredit := mapStakeCredit[pk := Credit(mapStakeCredit, pk) + 1];
      votes := votes + [pk];
    }

    method SeeOnline(pk: string)
      requires Valid()
      modifies this`online
      ensures Valid() && online == old(online) + {pk}
    {
      assert |online + {pk}| == |online| + if pk in online then 0 else 1 by {
        if pk in online {
          assert online + {pk} == online;
        }
      }
      online := online + {pk};
    }

    /**
     False only for a peer that is queued already for the same reason. Otherwise the proposal is accepted exactly if
     the peer's credit allows it, and a full queue leaves as one renumbered transaction.
     */
    method ProposeModifyStake(pk: string, ident: string, stake: int) returns (ok: bool)
      requires Valid()
      modifies this
      ensures Valid() && votes == old(votes) && online == old(online)
      ensures ok <==> !Queued(old(stackModifyStake), pk, ident)
      ensures var fits := ok && 3 * (old(Credit(mapStakeCredit, pk)) - 1) > -(|online|);
        var queue := old(stackModifyStake) + if fits then [ModifyStake(0, pk, ident, stake)] else [];
        && accepted == old(accepted) + (if fits then [Proposal(pk, ident, stake)] else [])
        && (if fits && 3 * |queue| >= |online| then
              stackModifyStake == [] && stackedTx == old(stackedTx) + [Renumbered(queue)]
            else
              stackModifyStake == queue && stackedTx == old(stackedTx))
    {
      hide QueueOk, Queued, Count, AskFor, AllNumbered, Flat, Peers, Renumbered;
      if Queued(stackModifyStake, pk, ident) {
        return false;
      }
      var credit := Credit(mapStakeCredit, pk) - 1;
      if 3 * credit > -1 * |online| {
        CountSnoc(Peers(accepted), pk);
        PeersSnoc(accepted, Proposal(pk, ident, stake));
        AskForSnoc(Flat(stackedTx), stackModifyStake, accepted, Proposal(pk, ident, stake));
        QueueSnoc(stackModifyStake, pk, ident, stake);
        mapStakeCredit := mapStakeCredit[pk := credit];
        accepted := accepted + [Proposal(pk, ident, stake)];
        stackModifyStake := stackModifyStake + [ModifyStake(0, pk, ident, stake)];
        if 3 * |stackModifyStake| >= |online| {
          QueueEmpty();
          ghost var before := stackedTx;
          StackTx(stackModifyStake);
          AskForBatch(before, stackModifyStake, stackedTx[|before|], accepted);
          stackModifyStake := [];
        }
      }
      return true;
    }

    method StackTx(commands: seq<Command>)
      modifies this`stackedTx
      ensures stackedTx == old(stackedTx) + [Renumbered(commands)]
      ensures var batch := stackedTx[|old(stackedTx)|];
        |batch| == |commands| && forall i :: 0 <= i < |batch| ==> batch[i] == commands[i].(seqNo := i + 1)
    {
      var s := 1;
      var numbered: seq<Command> := [];
      for i := 0 to |commands|
        invariant s == i + 1 && numbered == Renumbered(commands)[..i]
      {
        numbered := numbered + [commands[i].(seqNo := s)];
        s := s + 1;
      }
      assert Renumbered(commands)[..|commands|] == Renumbered(commands);
      stackedTx := stackedTx + [numbered];
    }
  }

  datatype Event = Vote(pk: string) | Propose(pk: string, ident: string, stake: int) | Online(pk: string)

  /** The account by the events alone: credits are not stored, they follow from votes and accepted proposals. */
  datatype Account = Account(votes: seq<string>, accepted: seq<Proposal>, queue: seq<Command>, online: set<string>,
                             stacked: seq<seq<Command>>)

  predicate Fits(a: Account, pk: string, ident: string) {
    !Queued(a.queue, pk, ident) && 3 * (Count(a.votes, pk) - Count(Peers(a.accepted), pk) - 1) > -(|a.online|)
  }

  function After(events: seq<Event>): Account {
    if events == [] then Account([], [], [], {}, [])
    else
      var a := After(events[..|events| - 1]);
      match events[|events| - 1]
      case Vote(pk) => a.(votes := a.votes + [pk])
      case Online(pk) => a.(online := a.online + {pk})
      case Propose(pk, ident, stake) =>
        if !Fits(a, pk, ident) then a
        else
          var queue := a.queue + [ModifyStake(0, pk, ident, stake)];
          if 3 * |queue| >= |a.online| then
            a.(accepted := a.accepted + [Proposal(pk, ident, stake)], queue := [], stacked := a.stacked + [Renumbered(queue)])
          else a.(accepted := a.accepted + [Proposal(pk, ident, stake)], queue := queue)
  }

  /**
   However votes, proposals and status messages interleave, the server's state is that account, a peer's credit is its
   votes minus its accepted proposals, and who was accepted at all has fewer accepted proposals than votes plus a
   third of the online peers. The commands handed over, followed by the queue, ask for exactly the accepted proposals.
   */
  method AnyRun(events: seq<Event>) returns (server: Server)
    ensures fresh(server) && server.Valid()
    ensures After(events) ==
            Account(server.votes, server.accepted, server.stackModifyStake, server.online, server.stackedTx)
    ensures forall x :: Credit(server.mapStakeCredit, x) == Count(server.votes, x) - Count(Peers(server.accepted), x)
    ensures forall x :: Count(Peers(server.accepted), x) > 0 ==>
              3 * Count(Peers(server.accepted), x) < 3 * Count(server.votes, x) + |server.online|
    ensures AskFor(Flat(server.stackedTx) + server.stackModifyStake, server.accepted) && AllNumbered(server.stackedTx)
  {
    hide QueueOk, Queued, Count, Renumbered, AskFor, AllNumbered, Flat, Peers;
    NoProposals();
    server := new Server();
    for i := 0 to |events|
      invariant fresh(server) && server.Valid()
      invariant After(events[..i]) ==
                Account(server.votes, server.accepted, server.stackModifyStake, server.online, server.stackedTx)
    {
      assert events[..i + 1][..i] == events[..i];
      match events[i] {
        case Vote(pk) => server.IncStakeCredit(pk);
        case Propose(pk, ident, stake) => var ok := server.ProposeModifyStake(pk, ident, stake);
        case Online(pk) => server.SeeOnline(pk);
      }
    }
    assert events[..|events|] == events;
  }
}
