/** The block a validator builds from its pool: when it is valid, and that arrival order does not matter. */
module Proposals {
  import opened Text
  import opened Types
  import opened Ledgers
  import opened Validations
  import opened Chains
  import opened Blockchains
  import opened Agreement
  import OrderedMaps

  const BLOCK_VERSION := 7

  /** Block.make: the block on top of a given one, without votes. */
  function MakeBlock(env: Env, previous: Block, txs: seq<Tx>): Block {
    var height := previous.height + 1;
    Block(BLOCK_VERSION, previous.hash, BlockHash(env, BLOCK_VERSION, previous.hash, txs, height), txs, height, [])
  }

  function Insert(t: Tx, sorted: seq<Tx>): seq<Tx> {
    if sorted != [] && LexLess(sorted[0].sig, t.sig) then [sorted[0]] + Insert(t, sorted[1..]) else [t] + sorted
  }

  /** The pool is kept sorted by signature. */
  function SortBySig(txs: seq<Tx>): seq<Tx> {
    if txs == [] then [] else Insert(txs[0], SortBySig(txs[1..]))
  }

  function Sigs(txs: seq<Tx>): (r: seq<string>)
    ensures |r| == |txs|
  {
    seq(|txs|, i requires 0 <= i < |txs| => txs[i].sig)
  }

  /** Everything in the pool is valid for the next block. */
  predicate AllValid(env: Env, height: int, txs: seq<Tx>) {
    forall i :: 0 <= i < |txs| ==> ValidTx(env, height, txs[i])
  }

  // ---------- sorting keeps what matters ----------

  lemma {:induction false} InsertMembers(t: Tx, s: seq<Tx>)
    ensures forall x :: x in Insert(t, s) <==> x == t || x in s
  {
    if s != [] && LexLess(s[0].sig, t.sig) {
      InsertMembers(t, s[1..]);
      assert s == [s[0]] + s[1..];
    }
  }

  lemma {:induction false} SortMembers(s: seq<Tx>)
    ensures |SortBySig(s)| == |s| && forall x :: x in SortBySig(s) <==> x in s
  {
    if s != [] {
      SortMembers(s[1..]);
      InsertMembers(s[0], SortBySig(s[1..]));
      InsertSize(s[0], SortBySig(s[1..]));
      assert s == [s[0]] + s[1..];
    }
  }

  lemma {:induction false} InsertSize(t: Tx, s: seq<Tx>)
    ensures |Insert(t, s)| == |s| + 1
  {
    if s != [] && LexLess(s[0].sig, t.sig) {
      InsertSize(t, s[1..]);
    }
  }

  lemma OriginsOf(s: seq<Tx>, o: string)
    ensures o in TxOrigins(s) <==> exists t :: t in s && t.origin == o
  {
    if o in TxOrigins(s) {
      var i :| 0 <= i < |s| && TxOrigins(s)[i] == o;
      assert s[i] in s && s[i].origin == o;
    }
    if t :| t in s && t.origin == o {
      var i :| 0 <= i < |s| && s[i] == t;
      assert TxOrigins(s)[i] == o;
    }
  }

  lemma DistinctCons(t: Tx, s: seq<Tx>)
    ensures Distinct(TxOrigins([t] + s)) <==> Distinct(TxOrigins(s)) && t.origin !in TxOrigins(s)
  {
    var all, rest := TxOrigins([t] + s), TxOrigins(s);
    assert all == [t.origin] + rest;
    if Distinct(all) {
      forall i, j | 0 <= i < j < |rest| ensures rest[i] != rest[j] {
        assert all[i + 1] != all[j + 1];
      }
      forall i | 0 <= i < |rest| ensures rest[i] != t.origin {
        assert all[0] != all[i + 1];
      }
    }
  }

  lemma {:induction false} InsertDistinct(t: Tx, s: seq<Tx>)
    ensures Distinct(TxOrigins(Insert(t, s))) <==> Distinct(TxOrigins(s)) && t.origin !in TxOrigins(s)
  {
    if s != [] && LexLess(s[0].sig, t.sig) {
      var rest := s[1..];
      assert s == [s[0]] + rest;
      InsertDistinct(t, rest);
      DistinctCons(s[0], rest);
      DistinctCons(s[0], Insert(t, rest));
      InsertMembers(t, rest);
      OriginsOf(rest, s[0].origin);
      OriginsOf(Insert(t, rest), s[0].origin);
      assert TxOrigins(s) == [s[0].origin] + TxOrigins(rest);
    } else {
      DistinctCons(t, s);
    }
  }

  /** Sorting neither adds nor hides a second transaction of one origin. */
  lemma {:induction false} SortDistinct(s: seq<Tx>)
    ensures Distinct(TxOrigins(SortBySig(s))) <==> Distinct(TxOrigins(s))
  {
    if s != [] {
      var rest := s[1..];
      assert s == [s[0]] + rest;
      SortDistinct(rest);
      SortMembers(rest);
      InsertDistinct(s[0], SortBySig(rest));
      DistinctCons(s[0], rest);
      OriginsOf(rest, s[0].origin);
      OriginsOf(SortBySig(rest), s[0].origin);
    }
  }

  lemma {:induction false} InsertSigs(t: Tx, s: seq<Tx>)
    ensures Sigs(Insert(t, s)) == InsertText(t.sig, Sigs(s))
  {
    if s != [] {
      assert Sigs(s) == [s[0].sig] + Sigs(s[1..]);
      InsertSigs(t, s[1..]);
    }
  }

  /** Sorting by signature sorts the signatures. */
  lemma {:induction false} SortSigs(s: seq<Tx>)
    ensures Sigs(SortBySig(s)) == SortTexts(Sigs(s))
  {
    if s != [] {
      assert Sigs(s) == [s[0].sig] + Sigs(s[1..]);
      SortSigs(s[1..]);
      InsertSigs(s[0], SortBySig(s[1..]));
    }
  }

  lemma SortSorts(s: seq<Tx>)
    requires Distinct(Sigs(s))
    ensures Sorted(Sigs(SortBySig(s))) && forall x :: x in Sigs(SortBySig(s)) <==> x in Sigs(s)
  {
    SortSigs(s);
    SortTextsSorts(Sigs(s));
  }

  // ---------- the theorems ----------

  /** The pool does not remember in which order its transactions arrived (signatures being distinct). */
  lemma ArrivalOrderIsForgotten(a: seq<Tx>, b: seq<Tx>)
    requires Distinct(Sigs(a)) && Distinct(Sigs(b)) && forall x :: x in a <==> x in b
    ensures SortBySig(a) == SortBySig(b)
  {
    var x, y := SortBySig(a), SortBySig(b);
    SortSorts(a);
    SortSorts(b);
    forall sig ensures sig in Sigs(x) <==> sig in Sigs(y) {
      SigOf(a, sig);
      SigOf(b, sig);
    }
    SortedUnique(Sigs(x), Sigs(y));
    SortMembers(a);
    SortMembers(b);
    forall i | 0 <= i < |x| ensures x[i] == y[i] {
      assert Sigs(x)[i] == Sigs(y)[i];
      assert x[i] in a && y[i] in a;
      OneTxPerSig(a, x[i], y[i]);
    }
  }

  lemma SigOf(s: seq<Tx>, sig: string)
    ensures sig in Sigs(s) <==> exists t :: t in s && t.sig == sig
  {
    if sig in Sigs(s) {
      var i :| 0 <= i < |s| && Sigs(s)[i] == sig;
      assert s[i] in s && s[i].sig == sig;
    }
    if t :| t in s && t.sig == sig {
      var i :| 0 <= i < |s| && s[i] == t;
      assert Sigs(s)[i] == sig;
    }
  }

  lemma OneTxPerSig(s: seq<Tx>, t: Tx, u: Tx)
    requires Distinct(Sigs(s)) && t in s && u in s && t.sig == u.sig
    ensures t == u
  {
    var i :| 0 <= i < |s| && s[i] == t;
    var j :| 0 <= j < |s| && s[j] == u;
    assert Sigs(s)[i] == Sigs(s)[j];
  }

  /**
   A proposal built from a pool of transactions valid for the next height passes the check every node at this tip
   makes before signing exactly if no origin is in it twice.
   */
  lemma ProposalIsValid(env: Env, tip: Block, txs: seq<Tx>)
    requires txs != [] && AllValid(env, tip.height + 1, txs)
    ensures ValidContent(env, MakeBlock(env, tip, SortBySig(txs))) <==> Distinct(TxOrigins(txs))
  {
    hide ValidTx, TxOrigins, LexLess;
    var pool, b := SortBySig(txs), MakeBlock(env, tip, SortBySig(txs));
    SortDistinct(txs);
    SortMembers(txs);
    forall i | 0 <= i < |b.tx| ensures ValidTx(env, b.height, b.tx[i]) {
      assert pool[i] in txs;
    }
  }

  /** The sender of every pooled transaction is its origin. */
  predicate SendersOwn(current: seq<(string, Tx)>) {
    forall i :: 0 <= i < |current| ==> current[i].1.origin == current[i].0
  }

  predicate KeysDistinct(current: seq<(string, Tx)>) {
    forall i, j :: 0 <= i < j < |current| ==> current[i].0 != current[j].0
  }

  /** If everybody sends his own transaction, the one-per-sender rule of the pool makes every proposal valid. */
  lemma OwnTransactionsAreDistinct(current: seq<(string, Tx)>)
    requires KeysDistinct(current) && SendersOwn(current)
    ensures Distinct(TxOrigins(OrderedMaps.Values(current)))
  {
    var o := TxOrigins(OrderedMaps.Values(current));
    assert forall i :: 0 <= i < |o| ==> o[i] == current[i].0;
  }

  lemma GenesisThere(env: Env, s: seq<Block>)
    requires FromGenesis(env, s)
    ensures s != []
  {
  }

  /**
   A confirmation carries over: what one node accepted with its votes, any node with the same hashes so far accepts
   too, if it holds a checked candidate of that hash when the votes arrive.
   */
  lemma ConfirmationCarriesOver(env: Env, s: seq<Block>, t: seq<Block>, b: Block, c: Block)
    requires NoCollisions(env, s, t) && NoCollision(env, b, c)
    requires FromGenesis(env, s) && FromGenesis(env, t) && s[0].(votes := []) == t[0].(votes := [])
    requires |s| == |t| && forall i :: 0 <= i < |s| ==> s[i].hash == t[i].hash
    requires Acceptable(env, EMPTY, s, b)
    requires ValidContent(env, c) && c.hash == b.hash && c.previousHash == t[|t| - 1].hash
    ensures Acceptable(env, EMPTY, t, c.(votes := b.votes))
  {
    hide FromGenesis, ValidTx, TxOrigins, ValidVotes, NoCollision, NoCollisions, LedgerAt;
    GenesisThere(env, s);
    CommonHistory(env, s, t, |s|);
    assert s[..|s|] == s && t[..|t|] == t;
    HashCommits(env, b, c);
    assert c.(votes := b.votes) == b;
  }
}
