/** What a pending stake tally stands for: whether its concatenated key can mix different votes. */
module Tallies {
  import opened Text
  import opened Types
  import opened Ledgers

  /** A character that can belong to the decimal text of a stake. */
  predicate IsNumeral(c: char) {
    IsDigit(c) || c == '-'
  }

  /** The ident ends in a character no number has, as `ping` and `vote` do. */
  predicate PlainEnd(ident: string) {
    ident != "" && !IsNumeral(ident[|ident| - 1])
  }

  // ---------- when two idents can share a key ----------

  predicate IsMagnitude(d: string) {
    d != "" && d[0] != '0' && forall i :: 0 <= i < |d| ==> IsDigit(d[i])
  }

  function Unsigned(w: string): string {
    if w != "" && w[0] == '-' then w[1..] else w
  }

  /** A text that a stake within the limit can begin with, before at least one more digit. */
  predicate StartsStake(w: string, limit: nat) {
    w == "-" || (IsMagnitude(Unsigned(w)) && 10 * NatValue(Unsigned(w)) <= limit)
  }

  /** The longer of two idents is the shorter one followed by the beginning of a stake. */
  predicate Extends(a: string, b: string, limit: nat) {
    a < b && StartsStake(b[|a|..], limit)
  }

  predicate Within(stake: int, limit: nat) {
    0 <= stake + limit && stake <= limit
  }

  ghost predicate ShareKey(a: string, b: string, limit: nat) {
    exists s, t :: Within(s, limit) && Within(t, limit) && a + IntText(s) == b + IntText(t)
  }

  lemma {:induction false} ValueGrows(w: string, x: string)
    requires forall i :: 0 <= i < |w| ==> IsDigit(w[i])
    requires x != "" && forall i :: 0 <= i < |x| ==> IsDigit(x[i])
    ensures 0 <= 10 * NatValue(w) <= NatValue(w + x)
  {
    var v := w + x;
    var front := x[..|x| - 1];
    assert v[..|v| - 1] == w + front;
    if front == "" {
      ValueNonNegative(w);
      assert w + front == w;
    } else {
      ValueGrows(w, front);
    }
  }

  lemma {:induction false} ValueNonNegative(w: string)
    requires forall i :: 0 <= i < |w| ==> IsDigit(w[i])
    ensures NatValue(w) >= 0
  {
    if w != "" {
      ValueNonNegative(w[..|w| - 1]);
    }
  }

  /** A number is written without leading zeros ... */
  lemma {:induction false} NatTextIsMagnitude(n: nat)
    requires n > 0
    ensures IsMagnitude(NatText(n))
  {
    NatTextDenotes(n);
    if n >= 10 {
      NatTextIsMagnitude(n / 10);
    }
  }

  /** ... and every such text is written for the number it denotes. */
  lemma {:induction false} MagnitudeIsNatText(d: string)
    requires IsMagnitude(d)
    ensures NatValue(d) > 0 && NatText(NatValue(d)) == d
  {
    var front, last := d[..|d| - 1], d[|d| - 1];
    var v := last as int - '0' as int;
    assert DigitChar(v) == last;
    if front == "" {
      assert NatValue(d) == v && d == [last];
    } else {
      MagnitudeIsNatText(front);
      assert NatValue(d) == 10 * NatValue(front) + v;
      assert NatValue(d) / 10 == NatValue(front) && NatValue(d) % 10 == v;
      assert d == front + [last];
    }
  }

  lemma NatSplits(n: nat, d: string, y: string)
    requires d != "" && y != "" && NatText(n) == d + y
    ensures IsMagnitude(d) && 10 * NatValue(d) <= n
  {
    NatTextDenotes(n);
    assert |NatText(n)| >= 2;
    NatTextIsMagnitude(n);
    assert forall i | 0 <= i < |d| :: d[i] == NatText(n)[i];
    assert forall i | 0 <= i < |y| :: y[i] == NatText(n)[|d| + i];
    ValueGrows(d, y);
  }

  /** A stake's text starts with a sign if it is negative, and has no other. */
  lemma Signs(s: int)
    ensures IntText(s) != "" && (IntText(s)[0] == '-' <==> s < 0)
    ensures forall i :: 1 <= i < |IntText(s)| ==> IntText(s)[i] != '-'
    ensures s < 0 ==> IntText(s)[1..] == NatText(-s)
  {
    NatTextDenotes(if s < 0 then -s else s);
    assert !IsDigit('-');
  }

  /** What a stake's text can be split into. */
  lemma StakeSplits(s: int, w: string, t: int, limit: nat)
    requires Within(s, limit) && w != "" && IntText(s) == w + IntText(t)
    ensures StartsStake(w, limit)
  {
    hide NatText, NatValue, IsMagnitude;
    Signs(s);
    Signs(t);
    var x, y := IntText(s), IntText(t);
    assert x[|w|] == y[0] && x[0] == w[0];
    if s >= 0 {
      NatSplits(s, w, y);
    } else if w != "-" {
      assert x[1..] == w[1..] + y;
      NatSplits(-s, w[1..], y);
    }
  }

  lemma StakeExtends(w: string, limit: nat)
    requires StartsStake(w, limit) && limit >= 1
    ensures exists s, t :: Within(s, limit) && Within(t, limit) && IntText(s) == w + IntText(t)
  {
    if w == "-" {
      assert IntText(-1) == w + IntText(1) && Within(-1, limit) && Within(1, limit);
    } else {
      var d := Unsigned(w);
      var v := NatValue(d);
      MagnitudeIsNatText(d);
      assert NatText(10 * v) == d + IntText(0);
      var s := if w[0] == '-' then -(10 * v) else 10 * v;
      assert IntText(s) == w + IntText(0) && Within(s, limit) && Within(0, limit);
    }
  }

  /** Exactly when two different idents can lead to the same key: one extends the other by the beginning of a stake. */
  lemma IdentsShareKey(a: string, b: string, limit: nat)
    requires a != b && limit >= 1
    ensures ShareKey(a, b, limit) <==> Extends(a, b, limit) || Extends(b, a, limit)
  {
    if s, t :| Within(s, limit) && Within(t, limit) && a + IntText(s) == b + IntText(t) {
      if |a| <= |b| {
        LongerIdent(a, s, b, t, limit);
      } else {
        LongerIdent(b, t, a, s, limit);
      }
    }
    if Extends(a, b, limit) {
      ExtensionShares(a, b, limit);
    } else if Extends(b, a, limit) {
      ExtensionShares(b, a, limit);
    }
  }

  lemma LongerIdent(a: string, s: int, b: string, t: int, limit: nat)
    requires a != b && |a| <= |b| && Within(s, limit) && a + IntText(s) == b + IntText(t)
    ensures Extends(a, b, limit)
  {
    hide IntText;
    var k := a + IntText(s);
    assert k[..|a|] == a && k[..|b|] == b;
    assert b == a + b[|a|..];
    assert k[|a|..] == IntText(s) && k[|a|..] == b[|a|..] + IntText(t);
    StakeSplits(s, b[|a|..], t, limit);
  }

  lemma ExtensionShares(a: string, b: string, limit: nat)
    requires Extends(a, b, limit) && limit >= 1
    ensures ShareKey(a, b, limit) && ShareKey(b, a, limit)
  {
    hide IntText;
    var w := b[|a|..];
    StakeExtends(w, limit);
    var s, t :| Within(s, limit) && Within(t, limit) && IntText(s) == w + IntText(t);
    assert b == a + w;
    assert a + IntText(s) == b + IntText(t);
  }

  lemma ExtensionEnds(a: string, b: string, limit: nat)
    requires Extends(a, b, limit)
    ensures b != "" && IsNumeral(b[|b| - 1])
  {
    var w := b[|a|..];
    assert b[|b| - 1] == w[|w| - 1];
    assert w == "-" || w[|w| - 1] == Unsigned(w)[|Unsigned(w)| - 1];
  }

  /** An extension ends in a numeral, so plain idents never share a key. */
  lemma PlainNeverExtends(a: string, b: string, limit: nat)
    ensures PlainEnd(b) ==> !Extends(a, b, limit)
  {
    if Extends(a, b, limit) {
      ExtensionEnds(a, b, limit);
    }
  }

  /** The target is the first 43 characters, and one ident fixes the amount. */
  lemma TallyKeyFixes(pk: string, ident: string, stake: int, pk': string, ident': string, stake': int)
    requires |pk| == 43 == |pk'|
    requires TallyKey(pk, ident, stake) == TallyKey(pk', ident', stake')
    ensures pk == pk' && ident + IntText(stake) == ident' + IntText(stake')
    ensures ident == ident' ==> stake == stake'
  {
    hide IntText;
    var k, k' := TallyKey(pk, ident, stake), TallyKey(pk', ident', stake');
    assert k[..43] == pk && k'[..43] == pk';
    assert k[43..] == ident + IntText(stake) && k'[43..] == ident' + IntText(stake');
    if ident == ident' {
      assert (ident + IntText(stake))[|ident|..] == IntText(stake);
      assert (ident' + IntText(stake'))[|ident|..] == IntText(stake');
      IntTextInjective(stake, stake');
    }
  }

  /**
   Votes with different idents fill one tally for some amounts within the limit exactly if one ident extends the
   other; the schema's limit is 1000.
   */
  lemma TalliesMix(pk: string, ident: string, ident': string, limit: nat)
    requires |pk| == 43 && ident != ident' && limit >= 1
    ensures (exists s, t :: Within(s, limit) && Within(t, limit) && TallyKey(pk, ident, s) == TallyKey(pk, ident', t))
            <==> Extends(ident, ident', limit) || Extends(ident', ident, limit)
  {
    hide IntText, Extends, TallyKey;
    IdentsShareKey(ident, ident', limit);
    forall s ensures TallyKey(pk, ident, s) == pk + (ident + IntText(s)) {
      KeyIs(pk, ident, s);
    }
    forall t ensures TallyKey(pk, ident', t) == pk + (ident' + IntText(t)) {
      KeyIs(pk, ident', t);
    }
    if ShareKey(ident, ident', limit) {
      var s, t :| Within(s, limit) && Within(t, limit) && ident + IntText(s) == ident' + IntText(t);
      assert TallyKey(pk, ident, s) == TallyKey(pk, ident', t);
    }
    if s, t :| Within(s, limit) && Within(t, limit) && TallyKey(pk, ident, s) == TallyKey(pk, ident', t) {
      TallyKeyFixes(pk, ident, s, pk, ident', t);
    }
  }

  lemma KeyIs(pk: string, ident: string, stake: int)
    ensures TallyKey(pk, ident, stake) == pk + (ident + IntText(stake))
  {
  }

  /** With plain idents the key also fixes ident and amount. */
  lemma TallyKeyInjective(pk: string, ident: string, stake: int, pk': string, ident': string, stake': int)
    requires |pk| == 43 == |pk'|
    requires TallyKey(pk, ident, stake) == TallyKey(pk', ident', stake')
    ensures pk == pk'
    ensures PlainEnd(ident) && PlainEnd(ident') ==> ident == ident' && stake == stake'
  {
    hide IntText, TallyKey, PlainEnd, Extends;
    TallyKeyFixes(pk, ident, stake, pk', ident', stake');
    var limit := 1 + (if stake < 0 then -stake else stake) + if stake' < 0 then -stake' else stake';
    if PlainEnd(ident) && PlainEnd(ident') && ident != ident' {
      assert Within(stake, limit) && Within(stake', limit);
      IdentsShareKey(ident, ident', limit);
      PlainNeverExtends(ident, ident', limit);
      PlainNeverExtends(ident', ident, limit);
    }
  }

  /** Keys do mix: a vote for 12 under ident `a` and a vote for 2 under ident `a1` fill one tally. */
  lemma TallyKeysMix(pk: string)
    ensures TallyKey(pk, "a", 12) == TallyKey(pk, "a1", 2)
  {
    assert NatText(12) == [DigitChar(1)] + [DigitChar(2)];
    assert DigitChar(1) == '1' && DigitChar(2) == '2';
    assert pk + "a" + "12" == pk + "a1" + "2";
  }

  /** The step executes this origin's vote under this key. */
  predicate IsBallot(step: Step, origin: string, key: string) {
    step.Execute? && step.op.origin == origin && step.op.command.ModifyStake?
    && TallyKey(step.op.command.publicKey, step.op.command.ident, step.op.command.stake) == key
  }

  /** The step decides the tally of this key. */
  predicate Resolves(l: Ledger, step: Step, key: string) {
    && step.Execute? && step.op.command.ModifyStake?
    && TallyKey(step.op.command.publicKey, step.op.command.ident, step.op.command.stake) == key
    && Decides(l, step.op.origin, step.op.command)
  }

  /** The step's ballot is looked at and the tally stays open. */
  predicate Enters(l: Ledger, step: Step, origin: string, key: string) {
    IsBallot(step, origin, key) && Counts(l, origin, step.op.command.publicKey) && !Resolves(l, step, key)
  }

  /** Step i is a ballot of this origin that entered the tally, and no later step decided it. */
  predicate Stands(steps: seq<Step>, i: nat, origin: string, key: string) {
    && i < |steps| && Enters(Run(steps[..i]).l, steps[i], origin, key)
    && forall j :: i < j < |steps| ==> !Resolves(Run(steps[..j]).l, steps[j], key)
  }

  lemma TallyStep(t: Tracked, step: Step, origin: string, key: string)
    ensures origin in Tally(Next(t, step).l, key) <==>
              !Resolves(t.l, step, key) && (origin in Tally(t.l, key) || Enters(t.l, step, origin, key))
  {
    hide TallyKey, IntText;
  }

  lemma StandsLater(steps: seq<Step>, i: nat, origin: string, key: string)
    requires steps != []
    ensures var n := |steps| - 1;
      Stands(steps, i, origin, key) <==>
        if i == n then Enters(Run(steps[..n]).l, steps[n], origin, key)
        else Stands(steps[..n], i, origin, key) && !Resolves(Run(steps[..n]).l, steps[n], key)
  {
    hide Run, Enters, Resolves;
    var n := |steps| - 1;
    var front := steps[..n];
    forall k | 0 <= k < n ensures front[..k] == steps[..k] && front[k] == steps[k] {
    }
    assert forall j | i < j < n :: !Resolves(Run(steps[..j]).l, steps[j], key) <==>
                                   !Resolves(Run(front[..j]).l, front[j], key);
  }

  /**
   Who is counted in a tally: exactly the origins of whose ballots under its key one was looked at after the last step
   that decided it. A ballot is spent by a decision.
   */
  lemma {:induction false} TalliesHoldVotes(steps: seq<Step>, key: string, origin: string)
    ensures origin in Tally(Run(steps).l, key) <==> exists i: nat :: Stands(steps, i, origin, key)
  {
    hide Run, Next, Enters, Resolves, Stands;
    if steps == [] {
      NoTallies(origin, key);
    } else {
      var n := |steps| - 1;
      var front := steps[..n];
      TalliesHoldVotes(front, key, origin);
      RunNext(steps);
      TallyStep(Run(front), steps[n], origin, key);
      forall i: nat
        ensures Stands(steps, i, origin, key) <==>
          if i == n then Enters(Run(front).l, steps[n], origin, key)
          else Stands(front, i, origin, key) && !Resolves(Run(front).l, steps[n], key)
      {
        StandsLater(steps, i, origin, key);
      }
      StandsBelow(front, origin, key);
      EntersOpen(Run(front).l, steps[n], origin, key);
      assert Stands(steps, n, origin, key) <==> Enters(Run(front).l, steps[n], origin, key);
      if i: nat :| Stands(front, i, origin, key) {
        assert Stands(steps, i, origin, key) <==> !Resolves(Run(front).l, steps[n], key);
      }
    }
  }

  lemma NoTallies(origin: string, key: string)
    ensures origin !in Tally(Run([]).l, key) && forall i: nat :: !Stands([], i, origin, key)
  {
  }

  lemma RunNext(steps: seq<Step>)
    requires steps != []
    ensures Run(steps) == Next(Run(steps[..|steps| - 1]), steps[|steps| - 1])
  {
  }

  lemma StandsBelow(steps: seq<Step>, origin: string, key: string)
    ensures forall i: nat :: Stands(steps, i, origin, key) ==> i < |steps| && IsBallot(steps[i], origin, key)
  {
  }

  lemma EntersOpen(l: Ledger, step: Step, origin: string, key: string)
    ensures Enters(l, step, origin, key) ==> !Resolves(l, step, key)
  {
  }

  /** The largest change of stake the schema lets a vote ask for. */
  const MAX_STAKE_CHANGE: nat := 1000

  predicate Confusable(a: string, b: string) {
    Extends(a, b, MAX_STAKE_CHANGE) || Extends(b, a, MAX_STAKE_CHANGE)
  }

  /**
   When a vote decides a tally, everyone counted in it has a standing ballot for the same target, and for the same ident
   and amount unless the two idents can be confused; plain idents cannot.
   */
  lemma DecidingVotersAgree(steps: seq<Step>, op: Op, voter: string)
    requires StepsOk(steps) && OpOk(op) && op.command.ModifyStake?
    requires voter in Tally(Run(steps).l, TallyKey(op.command.publicKey, op.command.ident, op.command.stake))
    ensures exists i: nat :: Stands(steps, i, voter, TallyKey(op.command.publicKey, op.command.ident, op.command.stake))
                        && SameTarget(steps[i], voter, op.command)
                        && (SameVote(steps[i], op.command) || Confusable(op.command.ident, steps[i].op.command.ident))
                        && (AllPlain(steps) && PlainEnd(op.command.ident) ==> SameVote(steps[i], op.command))
  {
    hide PlainEnd, Confusable, Run, Stands, SameTarget, SameVote, IsBallot, Decides, OpOk, TallyKey;
    var c := op.command;
    var key := TallyKey(c.publicKey, c.ident, c.stake);
    TalliesHoldVotes(steps, key, voter);
    var i: nat :| Stands(steps, i, voter, key);
    StandsBelow(steps, voter, key);
    StepOk(steps, i);
    BallotAgrees(steps[i], voter, op);
  }

  lemma StepOk(steps: seq<Step>, i: nat)
    requires StepsOk(steps) && i < |steps|
    ensures steps[i].Execute? ==> OpOk(steps[i].op)
    ensures AllPlain(steps) ==> PlainBallot(steps[i])
  {
  }

  /** Two ballots under one key. */
  lemma BallotAgrees(step: Step, voter: string, op: Op)
    requires OpOk(op) && op.command.ModifyStake? && (step.Execute? ==> OpOk(step.op))
    requires IsBallot(step, voter, TallyKey(op.command.publicKey, op.command.ident, op.command.stake))
    ensures SameTarget(step, voter, op.command)
    ensures SameVote(step, op.command) || Confusable(op.command.ident, step.op.command.ident)
    ensures PlainBallot(step) && PlainEnd(op.command.ident) ==> SameVote(step, op.command)
  {
    hide IntText, TallyKey, PlainEnd, Extends, IsNamespace;
    var c, v := op.command, step.op.command;
    TallyKeyFixes(c.publicKey, c.ident, c.stake, v.publicKey, v.ident, v.stake);
    TallyKeyInjective(c.publicKey, c.ident, c.stake, v.publicKey, v.ident, v.stake);
    if c.ident != v.ident {
      assert Within(c.stake, MAX_STAKE_CHANGE) && Within(v.stake, MAX_STAKE_CHANGE);
      IdentsShareKey(c.ident, v.ident, MAX_STAKE_CHANGE);
    }
  }

  predicate SameTarget(step: Step, voter: string, c: Command)
    requires c.ModifyStake?
  {
    step.Execute? && step.op.origin == voter && step.op.command.ModifyStake?
    && step.op.command.publicKey == c.publicKey
  }

  predicate SameVote(step: Step, c: Command)
    requires c.ModifyStake? && step.Execute? && step.op.command.ModifyStake?
  {
    step.op.command.ident == c.ident && step.op.command.stake == c.stake
  }

  predicate AllPlain(steps: seq<Step>) {
    forall j :: 0 <= j < |steps| ==> PlainBallot(steps[j])
  }

  predicate PlainBallot(step: Step) {
    step.Execute? && step.op.command.ModifyStake? ==> PlainEnd(step.op.command.ident)
  }
}
