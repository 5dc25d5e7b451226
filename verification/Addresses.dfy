/** The two address maps: under which address a peer is found, and what a clear leaves behind. */
module Addresses {
  import opened Types
  import opened Ledgers

  datatype Kind = Http | Udp

  function AddressOf(p: Peer, k: Kind): string {
    if k.Http? then p.http else p.udp
  }

  function Book(l: Ledger, k: Kind): map<string, string> {
    if k.Http? then l.http else l.udp
  }

  /** The step adds a peer, perhaps in vain, under this address. */
  predicate Registers(step: Step, k: Kind, address: string) {
    step.Execute? && step.op.command.AddPeer?
    && address == if k.Http? then step.op.command.http else step.op.command.udp
  }

  /** An address of its own: in the whole run no other peer is added under it. */
  predicate OwnAddress(steps: seq<Step>, k: Kind, address: string, pk: string) {
    forall i :: 0 <= i < |steps| && Registers(steps[i], k, address) ==> steps[i].op.command.publicKey == pk
  }

  predicate NeverCleared(steps: seq<Step>) {
    forall i :: 0 <= i < |steps| ==> steps[i].Execute?
  }

  /** The peer is a current one and has this address. */
  predicate Has(l: Ledger, pk: string, k: Kind, address: string) {
    pk in l.peers && AddressOf(l.peers[pk], k) == address
  }

  /** A current peer is found under its address, and nobody else is; if nothing was cleared, nobody who left is. */
  ghost predicate Found(l: Ledger, k: Kind, address: string, pk: string, neverCleared: bool) {
    && (forall q :: Has(l, q, k, address) ==> q == pk)
    && (address in Book(l, k) ==> Book(l, k)[address] == pk)
    && (Has(l, pk, k, address) ==> address in Book(l, k))
    && (neverCleared && address in Book(l, k) ==> Has(l, pk, k, address))
  }

  lemma AddStep(l: Ledger, op: Op, k: Kind, address: string, pk: string, neverCleared: bool)
    requires Found(l, k, address, pk, neverCleared) && op.command.AddPeer?
    requires Registers(Execute(op), k, address) ==> op.command.publicKey == pk
    ensures Found(Apply(l, op), k, address, pk, neverCleared)
  {
    var c, m := op.command, Apply(l, op);
    forall q | Has(m, q, k, address) ensures q == pk {
      assert q != c.publicKey ==> Has(l, q, k, address);
      assert c.publicKey in l.peers ==> Has(l, q, k, address);
    }
  }

  lemma RemoveStep(l: Ledger, op: Op, k: Kind, address: string, pk: string, neverCleared: bool)
    requires Found(l, k, address, pk, neverCleared) && op.command.RemovePeer?
    ensures Found(Apply(l, op), k, address, pk, neverCleared)
  {
    var c, m := op.command, Apply(l, op);
    forall q | Has(m, q, k, address) ensures q == pk {
      assert Has(l, q, k, address);
    }
    if Has(l, c.publicKey, k, address) {
      assert c.publicKey == pk;
    }
  }

  lemma SameBooks(l: Ledger, op: Op)
    requires !op.command.AddPeer? && !op.command.RemovePeer?
    ensures Apply(l, op).http == l.http && Apply(l, op).udp == l.udp
  {
    hide TallyKey;
  }

  lemma OtherStep(l: Ledger, op: Op, k: Kind, address: string, pk: string, neverCleared: bool)
    requires Found(l, k, address, pk, neverCleared) && !op.command.AddPeer? && !op.command.RemovePeer?
    ensures Found(Apply(l, op), k, address, pk, neverCleared)
  {
    hide Apply, Decides;
    var m := Apply(l, op);
    SameBooks(l, op);
    if op.command.ModifyStake? {
      ModifyStakeIs(l, op);
    } else {
      OtherwiseIs(l, op);
    }
    forall q ensures Has(m, q, k, address) <==> Has(l, q, k, address) {
    }
  }

  lemma ClearStep(l: Ledger, k: Kind, address: string, pk: string, neverCleared: bool)
    requires Found(l, k, address, pk, neverCleared)
    ensures Found(Cleared(l), k, address, pk, false)
  {
  }

  /**
   In every run, under an address of its own a peer is found as long as it is there, and nobody else ever is. If nothing
   was cleared it is found exactly as long as it is there.
   */
  lemma {:induction false} AddressBook(steps: seq<Step>, k: Kind, address: string, pk: string)
    requires OwnAddress(steps, k, address, pk)
    ensures Found(Run(steps).l, k, address, pk, NeverCleared(steps))
  {
    hide Found, Apply, Registers;
    if steps == [] {
      EmptyBook(k, address, pk, true);
    } else {
      var front, last := steps[..|steps| - 1], steps[|steps| - 1];
      var l := Run(front).l;
      AddressBook(front, k, address, pk);
      match last
      case Clear => ClearStep(l, k, address, pk, NeverCleared(front));
      case Execute(op) =>
        assert NeverCleared(steps) == NeverCleared(front);
        match op.command {
          case AddPeer(_, _, _, _) => AddStep(l, op, k, address, pk, NeverCleared(front));
          case RemovePeer(_, _) => RemoveStep(l, op, k, address, pk, NeverCleared(front));
          case _ => OtherStep(l, op, k, address, pk, NeverCleared(front));
        }
    }
  }

  lemma EmptyBook(k: Kind, address: string, pk: string, neverCleared: bool)
    ensures Found(Run([]).l, k, address, pk, neverCleared)
  {
  }

  /** A clear forgets the peers and the stored state but none of the addresses, weights and pending votes. */
  lemma ClearForgets(l: Ledger)
    ensures var m := Cleared(l);
      && m.peers == map[] && m.store == map[]
      && m.http == l.http && m.udp == l.udp && m.weight == l.weight && m.tallies == l.tallies
  {
  }

  /** So after a clear an address can lead to somebody who is no peer. */
  lemma StaleAddress(op: Op, pk: string)
    requires op == Op(pk, AddPeer(1, "h", "u", pk))
    ensures var l := Run([Execute(op), Clear]).l; pk !in l.peers && "u" in l.udp && l.udp["u"] == pk
  {
    var steps := [Execute(op), Clear];
    assert steps[..1] == [Execute(op)] && steps[..1][..0] == [];
    assert Run(steps[..1]).l == Apply(EMPTY, op);
    assert Run(steps).l == Cleared(Run(steps[..1]).l);
  }
}
