/** Range and page queries on the chain: which blocks they return, from memory or from the database. */
module Ranges {
  import opened Types
  import opened Ledgers
  import opened Chains

  /** The height nearest to x. */
  function Clip(h: int, x: int): int {
    if x < 1 then 1 else if x > h then h else x
  }

  /** The last height a range query returns: negative `lte` asks for one block, zero for everything. */
  function RangeHi(h: int, gte: int, lte: int): int {
    if lte < 0 then Clip(h, gte) else if lte == 0 || lte > h then h else lte
  }

  /** The first one: never above the last, and never so low that more than `query` blocks come back. */
  function RangeLo(h: int, query: int, gte: int, lte: int): int {
    var hi := RangeHi(h, gte, lte);
    var lo := if Clip(h, gte) < hi then Clip(h, gte) else hi;
    if lo < hi - query + 1 then hi - query + 1 else lo
  }

  /** The answer a node that stores s gives: from memory if the whole range is there, else from the database. */
  function Served(base: Ledger, s: seq<Block>, max: nat, query: nat, gte: int, lte: int): (r: seq<Block>)
    requires s != [] && query >= 1
    ensures var lo, hi := RangeLo(|s|, query, gte, lte), RangeHi(|s|, gte, lte);
      1 <= lo <= hi <= |s| && |r| == hi - lo + 1 <= query
  {
    var lo, hi := RangeLo(|s|, query, gte, lte), RangeHi(|s|, gte, lte);
    if lo > |s| - WindowSize(s, max) then
      seq(hi - lo + 1, i requires 0 <= i < hi - lo + 1 => Cached(base, s, lo - 1 + i))
    else s[lo - 1..hi]
  }

  /** A cut stake change was raised to what the target had left. */
  predicate SameUpToCut(a: Command, b: Command) {
    a == b || (a.ModifyStake? && b.ModifyStake? && a == b.(stake := a.stake) && b.stake < a.stake)
  }

  predicate TxSameUpToCut(a: Tx, b: Tx) {
    a == b.(commands := a.commands) && |a.commands| == |b.commands|
    && forall j :: 0 <= j < |a.commands| ==> SameUpToCut(a.commands[j], b.commands[j])
  }

  predicate BlockSameUpToCut(a: Block, b: Block) {
    a == b.(tx := a.tx) && |a.tx| == |b.tx| && forall i :: 0 <= i < |a.tx| ==> TxSameUpToCut(a.tx[i], b.tx[i])
  }

  lemma ExecutedSameUpToCut(l: Ledger, b: Block)
    ensures BlockSameUpToCut(Executed(l, b), b)
  {
    forall i | 0 <= i < |b.tx| ensures TxSameUpToCut(Executed(l, b).tx[i], b.tx[i]) {
    }
  }

  /** The guard of the cut: this vote decides, and would take more than there is. */
  predicate Cuts(l: Ledger, op: Op) {
    && op.command.ModifyStake? && Decides(l, op.origin, op.command)
    && l.peers[op.command.publicKey].stake + op.command.stake < 0
  }

  /** Command j of transaction i is cut when the block is executed on l. */
  predicate CutAt(l: Ledger, txs: seq<Tx>, i: nat, j: nat)
    requires i < |txs| && j < |txs[i].commands|
  {
    var before := ApplyAll(ApplyAll(l, Ops(txs[..i])), OpsOf(txs[i].origin, txs[i].commands[..j]));
    Cuts(before, Op(txs[i].origin, txs[i].commands[j]))
  }

  predicate HasCut(l: Ledger, txs: seq<Tx>) {
    exists i, j :: 0 <= i < |txs| && 0 <= j < |txs[i].commands| && CutAt(l, txs, i, j)
  }

  lemma WrittenChanges(l: Ledger, op: Op)
    ensures Written(l, op) != op.command <==> Cuts(l, op)
  {
  }

  lemma TxChanges(l: Ledger, txs: seq<Tx>, i: nat)
    requires i < |txs|
    ensures WrittenTxs(l, txs)[i] != txs[i] <==> exists j :: 0 <= j < |txs[i].commands| && CutAt(l, txs, i, j)
  {
    hide Written, Cuts, ApplyAll, Ops, OpsOf;
    var before, commands := ApplyAll(l, Ops(txs[..i])), txs[i].commands;
    var written := WrittenCommands(before, txs[i].origin, commands);
    forall j | 0 <= j < |commands| ensures written[j] != commands[j] <==> CutAt(l, txs, i, j) {
      WrittenChanges(ApplyAll(before, OpsOf(txs[i].origin, commands[..j])), Op(txs[i].origin, commands[j]));
    }
    assert txs[i].(commands := written) == txs[i] <==> written == commands;
  }

  /** Execution alters a block object exactly if the cut guard of some command in it is met. */
  lemma ExecutedChanges(l: Ledger, b: Block)
    ensures Executed(l, b) != b <==> HasCut(l, b.tx)
  {
    hide CutAt;
    forall i | 0 <= i < |b.tx|
      ensures WrittenTxs(l, b.tx)[i] != b.tx[i] <==> exists j :: 0 <= j < |b.tx[i].commands| && CutAt(l, b.tx, i, j)
    {
      TxChanges(l, b.tx, i);
    }
    assert b.(tx := WrittenTxs(l, b.tx)) == b <==> WrittenTxs(l, b.tx) == b.tx;
  }

  /**
   Which heights a query is answered with: up to the upper bound (the lower bound if the upper one is negative, the tip
   if it is zero or too high), from the lower bound on, but no more than `query` and always at least one.
   */
  lemma RangeMeans(h: int, query: int, gte: int, lte: int, k: int)
    requires h >= 1 && query >= 1
    ensures var top := if lte >= 1 then (if lte <= h then lte else h)
                       else if lte == 0 || gte > h then h
                       else if gte < 1 then 1
                       else gte;
      RangeLo(h, query, gte, lte) <= k <= RangeHi(h, gte, lte) <==>
        1 <= k <= top && k > top - query && (k >= gte || k == top)
  {
  }

  /**
   Every integer query on a chain of height at least one is answered by blocks of consecutive heights, at most
   `query` of them, and the memory path and the database path agree up to stake changes that were cut.
   */
  lemma ServedBlocks(base: Ledger, s: seq<Block>, max: nat, query: nat, gte: int, lte: int)
    requires s != [] && query >= 1 && Chains.Numbered(s)
    ensures var r, lo := Served(base, s, max, query, gte, lte), RangeLo(|s|, query, gte, lte);
      forall i :: 0 <= i < |r| ==> r[i].height == lo + i && BlockSameUpToCut(r[i], s[lo - 1 + i])
  {
    hide Cached, BlockSameUpToCut, RangeLo, RangeHi;
    forall i | 0 <= i < |s|
      ensures Cached(base, s, i).height == i + 1 == s[i].height
      ensures BlockSameUpToCut(Cached(base, s, i), s[i]) && BlockSameUpToCut(s[i], s[i])
    {
      CachedSame(base, s, i);
    }
  }

  lemma CachedSame(base: Ledger, s: seq<Block>, i: nat)
    requires i < |s|
    ensures Cached(base, s, i).height == s[i].height
    ensures BlockSameUpToCut(Cached(base, s, i), s[i]) && BlockSameUpToCut(s[i], s[i])
  {
    ExecutedSameUpToCut(LedgerAt(base, s[..i]), s[i]);
  }

  // ---------- pages, counted from the newest block ----------

  function PageSize(query: nat, size: int): int {
    if size < 1 || size > query then query else size
  }

  function PageFrom(h: int, page: int, size: int): int {
    var gte := h - (if page < 1 then 1 else page) * size + 1;
    if gte < 1 then 1 else gte
  }

  /** The heights lo..hi of one page. */
  function PageLo(h: int, query: nat, page: int, size: int): int {
    RangeLo(h, query, PageFrom(h, page, size), PageFrom(h, page, size) + size - 1)
  }

  function PageHi(h: int, page: int, size: int): int {
    RangeHi(h, PageFrom(h, page, size), PageFrom(h, page, size) + size - 1)
  }

  /** A page that lies fully inside the chain is exactly its slot counted from the end. */
  lemma FullPage(h: int, query: nat, page: int, size: int)
    requires 1 <= size <= query && 1 <= page && page * size <= h
    ensures PageLo(h, query, page, size) == h - page * size + 1
    ensures PageHi(h, page, size) == h - (page - 1) * size
  {
    assert (page - 1) * size == page * size - size;
    assert page * size >= size;
  }

  /** The page that would start before block 1 restarts there, with up to `size` blocks. */
  lemma PartialPage(h: int, query: nat, page: int, size: int)
    requires 1 <= h && 1 <= size <= query && 1 <= page && page * size > h
    ensures PageLo(h, query, page, size) == 1 && PageHi(h, page, size) == if size < h then size else h
  {
  }

  /**
   Which heights a page has, for all integers: a page below one is the first, and a size below one or too large is the
   limit. The page starts its number of sizes below the tip, or at block 1, and has one size of blocks.
   */
  lemma AnyPage(h: int, query: nat, page: int, size: int, k: int)
    requires h >= 1 && query >= 1
    ensures var n := if 1 <= size <= query then size else query;
      var from := h + 1 - n * if page >= 1 then page else 1;
      PageLo(h, query, page, PageSize(query, size)) <= k <= PageHi(h, page, PageSize(query, size)) <==>
        && 1 <= k <= h
        && (if from >= 1 then from else 1) <= k < (if from >= 1 then from else 1) + n
  {
    hide RangeLo, RangeHi;
    var p := if page >= 1 then page else 1;
    var n := PageSize(query, size);
    Product(n, p);
    PageWindow(h, query, n, h + 1 - n * p, k);
  }

  lemma Product(n: int, p: int)
    requires n >= 1 && p >= 1
    ensures p * n == n * p && n * p >= n
  {
    assert n * p == n + n * (p - 1);
    assert n * (p - 1) >= 0;
  }

  lemma PageWindow(h: int, query: nat, n: int, from: int, k: int)
    requires 1 <= n <= query && from <= h && h >= 1
    ensures var start := if from >= 1 then from else 1;
      RangeLo(h, query, start, start + n - 1) <= k <= RangeHi(h, start, start + n - 1) <==>
        1 <= k <= h && start <= k < start + n
  {
  }

  /** Pages `page`, `page - 1`, ..., 1 put one after the other. */
  function Pages(s: seq<Block>, query: nat, page: nat, size: nat): seq<Block>
    requires 1 <= size <= query && page * size <= |s|
  {
    if page == 0 then []
    else
      FullPage(|s|, query, page, size);
      assert 0 <= (page - 1) * size <= page * size;
      s[PageLo(|s|, query, page, size) - 1..PageHi(|s|, page, size)] + Pages(s, query, page - 1, size)
  }

  /** Full pages are disjoint and, read backwards, give exactly the newest page * size blocks. */
  lemma {:induction false} PagesConcatenate(s: seq<Block>, query: nat, page: nat, size: nat)
    requires 1 <= size <= query && page * size <= |s|
    ensures Pages(s, query, page, size) == s[|s| - page * size..]
  {
    if page > 0 {
      FullPage(|s|, query, page, size);
      assert (page - 1) * size == page * size - size;
      PagesConcatenate(s, query, page - 1, size);
    }
  }

  /** Every height is on a page, namely page (h - k) / size + 1, and never beyond page ceil(h / size). */
  lemma PagesCover(h: int, query: nat, size: nat, k: int)
    requires 1 <= size <= query && 1 <= k <= h
    ensures var page := (h - k) / size + 1;
      1 <= page <= (h + size - 1) / size && PageLo(h, query, page, size) <= k <= PageHi(h, page, size)
  {
    var page := (h - k) / size + 1;
    var r := (h - k) % size;
    assert h - k == (page - 1) * size + r;
    assert page * size == (page - 1) * size + size;
    if page * size <= h {
      FullPage(h, query, page, size);
    } else {
      PartialPage(h, query, page, size);
    }
    assert h + size - 1 >= page * size;
    DivAtLeast(h + size - 1, page, size);
  }

  lemma DivAtLeast(x: int, q: int, d: int)
    requires d >= 1 && x >= q * d
    ensures x / d >= q
  {
    var y := x / d;
    assert x == y * d + x % d;
    assert (y + 1) * d == y * d + d > q * d;
    MulOrder(q, y + 1, d);
  }

  lemma MulOrder(a: int, b: int, d: int)
    requires d >= 1 && a * d < b * d
    ensures a < b
  {
  }
}
