/**
 Blocks, transactions and commands, the schema facts the node checks on arrival, and the opaque
 cryptographic environment.
 */
module Types {
  import opened Text

  datatype Option<+T> = None | Some(value: T)

  datatype Command =
    | AddPeer(seqNo: int, http: string, udp: string, publicKey: string)
    | RemovePeer(seqNo: int, publicKey: string)
    | ModifyStake(seqNo: int, publicKey: string, ident: string, stake: int)
    | Data(seqNo: int, ns: string, d: string)
    | Decision(seqNo: int, ns: string, h: int, d: string)

  datatype Tx = Tx(ident: string, origin: string, commands: seq<Command>, sig: string)

  datatype Vote = Vote(origin: string, sig: string)

  datatype Block = Block(version: int, previousHash: string, hash: string, tx: seq<Tx>, height: int, votes: seq<Vote>)

  datatype Peer = Peer(publicKey: string, http: string, udp: string, stake: int)

  /** Hashing, signing and serialising are parameters: nothing is assumed of them unless a lemma says so. */
  datatype Env = Env(
    hash: string -> string,
    verify: (string, string, string) -> bool,
    sign: (string, string) -> string,
    jsonTx: seq<Tx> -> string,
    jsonCommands: seq<Command> -> string)

  ghost predicate SignaturesVerify(env: Env) {
    forall pk, text :: env.verify(pk, env.sign(pk, text), text)
  }

  // ---------- schema ----------

  predicate IsB64(c: char) {
    'A' <= c <= 'Z' || 'a' <= c <= 'z' || IsDigit(c) || c == '_' || c == '-'
  }

  predicate IsName(s: string, lo: nat, hi: nat) {
    lo <= |s| <= hi && forall i :: 0 <= i < |s| ==> IsB64(s[i])
  }

  predicate IsKey(s: string) {
    IsName(s, 43, 43)
  }

  /** `([A-Za-z_-]{4,15}:)` repeated one to `groups` times, then `[A-Za-z0-9_-]{1,64}`. */
  predicate IsNamespace(s: string, groups: nat) {
    groups > 0 && exists i | 4 <= i <= 15 && i < |s| ::
      s[i] == ':' && (forall j :: 0 <= j < i ==> IsB64(s[j]) && !IsDigit(s[j]))
      && (IsName(s[i + 1..], 1, 64) || IsNamespace(s[i + 1..], groups - 1))
  }

  predicate CommandOk(c: Command) {
    c.seqNo >= 1 &&
    match c
    case AddPeer(_, http, udp, pk) => 1 <= |http| <= 1024 && 1 <= |udp| <= 1024 && IsKey(pk)
    case RemovePeer(_, pk) => IsKey(pk)
    case ModifyStake(_, pk, ident, stake) => IsKey(pk) && IsName(ident, 1, 32) && -1000 <= stake <= 1000
    case Data(_, ns, d) => IsNamespace(ns, 4) && |d| <= 8192
    case Decision(_, ns, h, d) => IsNamespace(ns, 4) && h >= 2 && |d| <= 8192
  }

  predicate TxOk(tx: Tx) {
    && IsName(tx.ident, 1, 32) && IsKey(tx.origin) && IsName(tx.sig, 86, 86)
    && 1 <= |tx.commands| <= 16
    && (forall i, j :: 0 <= i < j < |tx.commands| ==> tx.commands[i] != tx.commands[j])
    && (forall i :: 0 <= i < |tx.commands| ==> CommandOk(tx.commands[i]))
  }

  /** What the ledger relies on: every key in the block has its fixed length. The genesis block meets it too. */
  predicate KeysOk(txs: seq<Tx>) {
    forall i :: 0 <= i < |txs| ==>
      IsKey(txs[i].origin) && forall j :: 0 <= j < |txs[i].commands| ==> CommandOk(txs[i].commands[j])
  }

  predicate Distinct<T(==)>(s: seq<T>) {
    forall i, j :: 0 <= i < j < |s| ==> s[i] != s[j]
  }

  // ---------- block hash ----------

  function BlockText(env: Env, version: int, previousHash: string, tx: seq<Tx>, height: int): string {
    IntText(version) + "," + previousHash + "," + env.jsonTx(tx) + "," + IntText(height)
  }

  function BlockHash(env: Env, version: int, previousHash: string, tx: seq<Tx>, height: int): string {
    env.hash(BlockText(env, version, previousHash, tx, height))
  }

  predicate HashOk(env: Env, b: Block) {
    BlockHash(env, b.version, b.previousHash, b.tx, b.height) == b.hash
  }

  function TextOf(env: Env, b: Block): string {
    BlockText(env, b.version, b.previousHash, b.tx, b.height)
  }

  /**
   Hash and serialiser tell the texts of these two blocks apart. Agreement needs this of the blocks it compares only;
   of all texts it could not be asked, because hashes have one length.
   */
  predicate NoCollision(env: Env, b: Block, c: Block) {
    && (env.hash(TextOf(env, b)) == env.hash(TextOf(env, c)) ==> TextOf(env, b) == TextOf(env, c))
    && (env.jsonTx(b.tx) == env.jsonTx(c.tx) ==> b.tx == c.tx)
  }

  /** No collision between blocks of the same height. */
  predicate NoCollisions(env: Env, s: seq<Block>, t: seq<Block>) {
    forall i :: 0 <= i < |s| && i < |t| ==> NoCollision(env, s[i], t[i])
  }

  lemma IntTextHasNoComma(n: int)
    ensures ',' !in IntText(n)
  {
    NatTextDenotes(if n < 0 then -n else n);
    assert !IsDigit(',');
  }

  lemma {:induction false} FirstComma(a: string, b: string, x: string, y: string)
    requires ',' !in a && ',' !in b && a + "," + x == b + "," + y
    ensures a == b && x == y
  {
    var s := a + "," + x;
    assert s[|a|] == ',' && s[|b|] == ',';
    assert forall k | 0 <= k < |a| :: s[k] == a[k] != ',';
    assert forall k | 0 <= k < |b| :: s[k] == b[k] != ',';
    assert s[..|a|] == a && (b + "," + y)[..|b|] == b;
    assert (a + "," + x)[|a| + 1..] == x && (b + "," + y)[|b| + 1..] == y;
  }

  lemma {:induction false} LastComma(a: string, b: string, x: string, y: string)
    requires ',' !in x && ',' !in y && a + "," + x == b + "," + y
    ensures a == b && x == y
  {
    var s := a + "," + x;
    assert s[|a|] == ',' && s[|b|] == ',';
    assert forall k | |a| < k < |s| :: s[k] == x[k - |a| - 1] != ',';
    assert forall k | |b| < k < |s| :: s[k] == y[k - |b| - 1] != ',';
    assert s[..|a|] == a && (b + "," + y)[..|b|] == b;
    assert s[|a| + 1..] == x && (b + "," + y)[|b| + 1..] == y;
  }

  /** A block hash commits to version, previous hash, transactions and height. */
  lemma HashCommits(env: Env, b: Block, c: Block)
    requires NoCollision(env, b, c)
    requires HashOk(env, b) && HashOk(env, c) && b.hash == c.hash
    requires |b.previousHash| == |c.previousHash|
    ensures b.version == c.version && b.previousHash == c.previousHash && b.tx == c.tx && b.height == c.height
  {
    IntTextHasNoComma(b.version);
    IntTextHasNoComma(c.version);
    IntTextHasNoComma(b.height);
    IntTextHasNoComma(c.height);
    LastComma(IntText(b.version) + "," + b.previousHash + "," + env.jsonTx(b.tx),
              IntText(c.version) + "," + c.previousHash + "," + env.jsonTx(c.tx), IntText(b.height), IntText(c.height));
    var restB := b.previousHash + "," + env.jsonTx(b.tx);
    var restC := c.previousHash + "," + env.jsonTx(c.tx);
    assert IntText(b.version) + "," + b.previousHash + "," + env.jsonTx(b.tx) == IntText(b.version) + "," + restB;
    assert IntText(c.version) + "," + c.previousHash + "," + env.jsonTx(c.tx) == IntText(c.version) + "," + restC;
    FirstComma(IntText(b.version), IntText(c.version), restB, restC);
    assert restB[..|b.previousHash|] == b.previousHash && restC[..|b.previousHash|] == c.previousHash;
    assert restB[|b.previousHash| + 1..] == env.jsonTx(b.tx) && restC[|b.previousHash| + 1..] == env.jsonTx(c.tx);
    IntTextInjective(b.version, c.version);
    IntTextInjective(b.height, c.height);
  }
}
