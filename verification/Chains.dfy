/**
 The stored chain and everything a node derives from it: the ledger, the window of recent blocks and the block
 database, with the two ways a node arrives there (adding blocks one by one, and re-reading the database).
 */
module Chains {
  import opened Text
  import opened Types
  import opened Ledgers
  import OrderedMaps

  // ---------- the block database: entries in key order ----------

  type Db = seq<(string, Block)>

  function Put(db: Db, key: string, b: Block): Db {
    if db == [] then [(key, b)]
    else if db[0].0 == key then [(key, b)] + db[1..]
    else if LexLess(key, db[0].0) then [(key, b)] + db
    else [db[0]] + Put(db[1..], key, b)
  }

  /** The values the iterator yields for gte <= key <= lte. */
  function Between(db: Db, gte: string, lte: string): seq<Block> {
    if db == [] then []
    else
      var last := db[|db| - 1];
      Between(db[..|db| - 1], gte, lte) + if LexLess(last.0, gte) || LexLess(lte, last.0) then [] else [last.1]
  }

  // ---------- the reference: all state as a function of the stored blocks ----------

  /** Heights count from one. */
  predicate Numbered(s: seq<Block>) {
    |s| < KEY_LIMIT && forall i :: 0 <= i < |s| ==> s[i].height == i + 1
  }

  function LedgerAt(base: Ledger, s: seq<Block>): Ledger {
    if s == [] then base else ApplyAll(LedgerAt(base, s[..|s| - 1]), Ops(s[|s| - 1].tx))
  }

  /** A block object after its execution: stake changes that were cut are written back into it. */
  function Executed(l: Ledger, b: Block): Block {
    b.(tx := WrittenTxs(l, b.tx))
  }

  /** The block object kept in memory for the stored block s[i]. */
  function Cached(base: Ledger, s: seq<Block>, i: nat): Block
    requires i < |s|
  {
    Executed(LedgerAt(base, s[..i]), s[i])
  }

  function WindowSize(s: seq<Block>, max: nat): nat {
    if |s| < max then |s| else max
  }

  function Window(base: Ledger, s: seq<Block>, max: nat): (w: seq<(int, Block)>)
    ensures |w| == WindowSize(s, max)
  {
    var skip := |s| - WindowSize(s, max);
    seq(WindowSize(s, max), j requires 0 <= j < WindowSize(s, max) => (skip + j + 1, Cached(base, s, skip + j)))
  }

  function DbOf(s: seq<Block>): (db: Db)
    ensures |db| == |s|
  {
    seq(|s|, i requires 0 <= i < |s| => (BlockKey(i + 1), s[i]))
  }

  function Latest(base: Ledger, s: seq<Block>): Option<Block> {
    if s == [] then None else Some(Cached(base, s, |s| - 1))
  }

  datatype Chain = Chain(height: int, window: seq<(int, Block)>, latest: Option<Block>, ledger: Ledger, db: Db)

  /** What a node that stores the blocks s must hold, starting from the ledger `base`. */
  function ChainOf(base: Ledger, s: seq<Block>, max: nat): Chain {
    Chain(|s|, Window(base, s, max), Latest(base, s), LedgerAt(base, s), DbOf(s))
  }

  // ---------- the two update orders of the source ----------

  function UpdateCache(c: Chain, b: Block, max: nat): Chain {
    var w := OrderedMaps.Set(c.window, b.height, b);
    c.(height := b.height, latest := Some(b),
       window := if |w| > max then OrderedMaps.Delete(w, b.height - max) else w)
  }

  /** add: store, execute, then cache the executed block object. */
  function AddStep(c: Chain, b: Block, max: nat): Chain
    requires b.height >= 0
  {
    UpdateCache(c.(db := Put(c.db, BlockKey(b.height), b), ledger := ApplyAll(c.ledger, Ops(b.tx))),
                Executed(c.ledger, b), max)
  }

  /** init: cache first, then execute; the cached object is the one that is executed, so write-backs show in it. */
  function InitStep(c: Chain, b: Block, max: nat): Chain {
    var d := UpdateCache(c, b, max);
    var e := Executed(d.ledger, b);
    d.(ledger := ApplyAll(d.ledger, Ops(b.tx)), latest := Some(e), window := OrderedMaps.Set(d.window, b.height, e))
  }

  function Replay(c: Chain, blocks: seq<Block>, max: nat): Chain {
    if blocks == [] then c else InitStep(Replay(c, blocks[..|blocks| - 1], max), blocks[|blocks| - 1], max)
  }

  // ---------- proofs ----------

  lemma {:induction false} PutAppends(db: Db, key: string, b: Block)
    requires forall i :: 0 <= i < |db| ==> LexLess(db[i].0, key)
    ensures Put(db, key, b) == db + [(key, b)]
  {
    if db != [] {
      LexAsymmetric(db[0].0, key);
      PutAppends(db[1..], key, b);
    }
  }

  /** Storing the next block appends it: padded keys sort as heights. */
  lemma PutNext(s: seq<Block>, b: Block)
    requires |s| + 1 < KEY_LIMIT
    ensures Put(DbOf(s), BlockKey(|s| + 1), b) == DbOf(s + [b])
  {
    forall i | 0 <= i < |s| ensures LexLess(DbOf(s)[i].0, BlockKey(|s| + 1)) {
      BlockKeyOrder(i + 1, |s| + 1);
    }
    PutAppends(DbOf(s), BlockKey(|s| + 1), b);
  }

  /** In a sorted database a key range is a contiguous stretch. */
  lemma {:induction false} BetweenStretch(db: Db, gte: string, lte: string, a: nat, b: nat)
    requires a <= b
    requires forall i :: 0 <= i < |db| ==> (LexLess(db[i].0, gte) <==> i < a) && (LexLess(lte, db[i].0) <==> b <= i)
    ensures Between(db, gte, lte) ==
            OrderedMaps.Values(db)[if |db| < a then |db| else a..if |db| < b then |db| else b]
  {
    hide LexLess;
    if db != [] {
      var front := db[..|db| - 1];
      BetweenStretch(front, gte, lte, a, b);
      assert OrderedMaps.Values(front) == OrderedMaps.Values(db)[..|db| - 1];
    }
  }

  /** A key range of the database is the block range. */
  lemma BetweenIsSlice(s: seq<Block>, lo: nat, hi: nat)
    requires |s| < KEY_LIMIT && 1 <= lo <= hi <= |s|
    ensures Between(DbOf(s), BlockKey(lo), BlockKey(hi)) == s[lo - 1..hi]
  {
    var db := DbOf(s);
    forall i | 0 <= i < |db|
      ensures (LexLess(db[i].0, BlockKey(lo)) <==> i < lo - 1) && (LexLess(BlockKey(hi), db[i].0) <==> hi <= i)
    {
      BlockKeyOrder(i + 1, lo);
      BlockKeyOrder(hi, i + 1);
    }
    BetweenStretch(db, BlockKey(lo), BlockKey(hi), lo - 1, hi);
    assert OrderedMaps.Values(db) == s;
  }

  lemma LedgerAtExtends(base: Ledger, s: seq<Block>, b: Block)
    ensures LedgerAt(base, s + [b]) == ApplyAll(LedgerAt(base, s), Ops(b.tx))
  {
    assert (s + [b])[..|s|] == s;
  }

  lemma CachedStays(base: Ledger, s: seq<Block>, b: Block, i: nat)
    requires i < |s|
    ensures Cached(base, s + [b], i) == Cached(base, s, i)
  {
    assert (s + [b])[..i] == s[..i];
  }

  /** One cached block more: the window slides and stays sorted by height. */
  lemma WindowExtends(base: Ledger, s: seq<Block>, b: Block, e: Block, max: nat)
    requires max >= 1
    ensures var w := OrderedMaps.Set(Window(base, s, max), |s| + 1, e);
      w == Window(base, s, max) + [(|s| + 1, e)] &&
      (if |w| > max then OrderedMaps.Delete(w, |s| + 1 - max) else w) ==
      Window(base, s + [b], max)[..WindowSize(s + [b], max) - 1] + [(|s| + 1, e)]
  {
    var v := Window(base, s, max);
    OrderedMaps.SetAppends(v, |s| + 1, e);
    WindowSlides(base, s, b, max);
    var w := v + [(|s| + 1, e)];
    if |w| > max {
      OrderedMaps.DeleteFirst(w, |s| + 1 - max);
      assert w[1..] == v[1..] + [(|s| + 1, e)];
    }
  }

  lemma WindowSlides(base: Ledger, s: seq<Block>, b: Block, max: nat)
    requires max >= 1
    ensures Window(base, s + [b], max)[..WindowSize(s + [b], max) - 1] ==
            if |s| >= max then Window(base, s, max)[1..] else Window(base, s, max)
  {
    forall i | 0 <= i < |s| ensures Cached(base, s + [b], i) == Cached(base, s, i) {
      CachedStays(base, s, b, i);
    }
  }

  lemma WindowEnds(base: Ledger, s: seq<Block>, max: nat)
    requires max >= 1 && s != []
    ensures Window(base, s, max) ==
            Window(base, s, max)[..WindowSize(s, max) - 1] + [(|s|, Cached(base, s, |s| - 1))]
  {
  }

  /** Adding a block to a node that stores s leaves what a node that stores s + [b] must hold. */
  lemma AddExtends(base: Ledger, s: seq<Block>, b: Block, max: nat)
    requires max >= 1 && Numbered(s) && b.height == |s| + 1 < KEY_LIMIT
    ensures AddStep(ChainOf(base, s, max), b, max) == ChainOf(base, s + [b], max)
  {
    assert (s + [b])[|s|] == b && (s + [b])[..|s|] == s;
    LedgerAtExtends(base, s, b);
    PutNext(s, b);
    WindowExtends(base, s, b, Executed(LedgerAt(base, s), b), max);
    WindowEnds(base, s + [b], max);
  }

  /** So does reading it back, although cache and execution come in the opposite order. */
  lemma InitExtends(base: Ledger, s: seq<Block>, b: Block, max: nat, db: Db)
    requires max >= 1 && Numbered(s) && b.height == |s| + 1 < KEY_LIMIT
    ensures InitStep(ChainOf(base, s, max).(db := db), b, max) == ChainOf(base, s + [b], max).(db := db)
  {
    hide LedgerAt, ApplyAll, Executed, Numbered, OrderedMaps.Set, OrderedMaps.Delete, Window;
    assert (s + [b])[|s|] == b && (s + [b])[..|s|] == s;
    LedgerAtExtends(base, s, b);
    WindowExtends(base, s, b, b, max);
    WindowEnds(base, s + [b], max);
    WindowBelow(base, s + [b], max);
    WriteBack(Window(base, s + [b], max), |s| + 1, b, Executed(LedgerAt(base, s), b));
  }

  lemma WindowBelow(base: Ledger, s: seq<Block>, max: nat)
    requires max >= 1 && s != []
    ensures var w := Window(base, s, max); w != [] && forall i :: 0 <= i < |w| - 1 ==> w[i].0 < |s|
  {
  }

  lemma WriteBack(w: seq<(int, Block)>, h: int, b: Block, e: Block)
    requires w != [] && forall i :: 0 <= i < |w| - 1 ==> w[i].0 < h
    ensures OrderedMaps.Set(w[..|w| - 1] + [(h, b)], h, e) == w[..|w| - 1] + [(h, e)]
  {
    var v := w[..|w| - 1] + [(h, b)];
    assert v[..|v| - 1] == w[..|w| - 1];
    OrderedMaps.SetReplacesLast(v, h, e);
  }

  /**
   Restart refines the incremental run: reading the database of a node that stores s, from the same starting
   ledger, ends in exactly the state that node has, database included.
   */
  lemma {:induction false} ReplayRefinesAdds(base: Ledger, s: seq<Block>, max: nat)
    requires max >= 1 && Numbered(s)
    ensures Replay(ChainOf(base, [], max).(db := DbOf(s)), OrderedMaps.Values(DbOf(s)), max) == ChainOf(base, s, max)
  {
    assert OrderedMaps.Values(DbOf(s)) == s;
    ReplayReaches(base, s, max, DbOf(s));
  }

  lemma {:induction false} ReplayReaches(base: Ledger, s: seq<Block>, max: nat, db: Db)
    requires max >= 1 && Numbered(s)
    ensures Replay(ChainOf(base, [], max).(db := db), s, max) == ChainOf(base, s, max).(db := db)
  {
    if s != [] {
      var front, last := s[..|s| - 1], s[|s| - 1];
      assert front + [last] == s;
      ReplayReaches(base, front, max, db);
      InitExtends(base, front, last, max, db);
    }
  }
}
