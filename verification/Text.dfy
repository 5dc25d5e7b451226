/**
 Text as the node writes it: decimal numbers, zero-padded database keys, and the byte order in which the
 block database is iterated and signatures are sorted.
 */
module Text {

  // ---------- decimal numbers ----------

  function DigitChar(d: nat): char
    requires d < 10
  {
    (d + '0' as int) as char
  }

  predicate IsDigit(c: char) {
    '0' <= c <= '9'
  }

  function NatText(n: nat): string {
    if n < 10 then [DigitChar(n)] else NatText(n / 10) + [DigitChar(n % 10)]
  }

  function IntText(n: int): string {
    if n < 0 then "-" + NatText(-n) else NatText(n)
  }

  /** The number a digit string denotes: the inverse of NatText. */
  function NatValue(s: string): int {
    if s == "" then 0 else 10 * NatValue(s[..|s| - 1]) + (s[|s| - 1] as int - '0' as int)
  }

  lemma {:induction false} NatTextDenotes(n: nat)
    ensures NatValue(NatText(n)) == n
    ensures NatText(n) != "" && forall i :: 0 <= i < |NatText(n)| ==> IsDigit(NatText(n)[i])
  {
    if n < 10 {
      assert NatText(n)[..0] == "";
    } else {
      NatTextDenotes(n / 10);
      assert NatText(n)[..|NatText(n)| - 1] == NatText(n / 10);
    }
  }

  lemma {:induction false} IntTextInjective(a: int, b: int)
    requires IntText(a) == IntText(b)
    ensures a == b
  {
    NatTextDenotes(if a < 0 then -a else a);
    NatTextDenotes(if b < 0 then -b else b);
    assert forall n: int {:trigger IntText(n)} :: n < 0 ==> IntText(n)[0] == '-' && IntText(n)[1..] == NatText(-n);
    assert !IsDigit('-');
  }

  // ---------- byte order ----------

  /** The strict order of the database iterator and of JavaScript's string comparison. */
  predicate LexLess(a: string, b: string) {
    b != "" && (a == "" || a[0] < b[0] || (a[0] == b[0] && LexLess(a[1..], b[1..])))
  }

  lemma {:induction false} LexAsymmetric(a: string, b: string)
    requires LexLess(a, b)
    ensures !LexLess(b, a) && a != b
  {
    if a != "" && a[0] == b[0] {
      LexAsymmetric(a[1..], b[1..]);
    }
  }

  lemma {:induction false} LexTransitive(a: string, b: string, c: string)
    requires LexLess(a, b) && LexLess(b, c)
    ensures LexLess(a, c)
  {
    if a != "" && a[0] == b[0] == c[0] {
      LexTransitive(a[1..], b[1..], c[1..]);
    }
  }

  lemma {:induction false} LexTotal(a: string, b: string)
    ensures a == b || LexLess(a, b) || LexLess(b, a)
  {
    if a != "" && b != "" && a[0] == b[0] {
      LexTotal(a[1..], b[1..]);
      assert a == [a[0]] + a[1..] && b == [b[0]] + b[1..];
    }
  }

  lemma {:induction false} LexSameLengthExtends(a: string, b: string, x: string, y: string)
    requires |a| == |b|
    ensures LexLess(a, b) ==> LexLess(a + x, b + y)
    ensures a == b ==> (LexLess(a + x, b + y) <==> LexLess(x, y))
  {
    if a == "" {
      assert a + x == x && b + y == y;
    } else {
      assert (a + x)[1..] == a[1..] + x && (b + y)[1..] == b[1..] + y;
      LexSameLengthExtends(a[1..], b[1..], x, y);
    }
  }

  predicate Sorted(a: seq<string>) {
    forall i, j :: 0 <= i < j < |a| ==> LexLess(a[i], a[j])
  }

  /** A set of texts has one strictly sorted listing. */
  lemma {:induction false} SortedUnique(a: seq<string>, b: seq<string>)
    requires Sorted(a) && Sorted(b) && forall x :: x in a <==> x in b
    ensures a == b
  {
    assert (a == [] || a[0] in a) && (b == [] || b[0] in b);
    if a != [] && b != [] {
      SortedHead(a, b);
      assert a == [a[0]] + a[1..] && b == [b[0]] + b[1..];
      forall x ensures x in a[1..] <==> x in b[1..] {
        SortedTail(a, x);
        SortedTail(b, x);
      }
      SortedUnique(a[1..], b[1..]);
    }
  }

  lemma SortedHead(a: seq<string>, b: seq<string>)
    requires a != [] && b != [] && Sorted(a) && Sorted(b) && a[0] in b && b[0] in a
    ensures a[0] == b[0]
  {
    var i :| 0 <= i < |b| && b[i] == a[0];
    var j :| 0 <= j < |a| && a[j] == b[0];
    if i > 0 && j > 0 {
      LexAsymmetric(b[0], b[i]);
    }
  }

  lemma SortedTail(a: seq<string>, x: string)
    requires a != [] && Sorted(a)
    ensures x in a[1..] <==> x in a && x != a[0]
  {
    if x in a[1..] {
      var i :| 0 <= i < |a[1..]| && a[1..][i] == x;
      LexAsymmetric(a[0], a[i + 1]);
    }
  }

  // ---------- sorting ----------

  function InsertText(x: string, s: seq<string>): seq<string> {
    if s != [] && LexLess(s[0], x) then [s[0]] + InsertText(x, s[1..]) else [x] + s
  }

  function SortTexts(s: seq<string>): seq<string> {
    if s == [] then [] else InsertText(s[0], SortTexts(s[1..]))
  }

  lemma {:induction false} InsertTextKeeps(x: string, s: seq<string>)
    requires Sorted(s) && x !in s
    ensures Sorted(InsertText(x, s)) && forall y :: y in InsertText(x, s) <==> y == x || y in s
  {
    if s != [] && LexLess(s[0], x) {
      var rest := s[1..];
      assert s == [s[0]] + rest;
      InsertTextKeeps(x, rest);
      forall j | 0 <= j < |InsertText(x, rest)| ensures LexLess(s[0], InsertText(x, rest)[j]) {
        assert InsertText(x, rest)[j] in InsertText(x, rest);
      }
    } else {
      forall j | 0 <= j < |s| ensures LexLess(x, s[j]) {
        LexTotal(x, s[0]);
        if j > 0 {
          LexTransitive(x, s[0], s[j]);
        }
      }
    }
  }

  /** Sorting distinct texts gives their one sorted listing. */
  lemma {:induction false} SortTextsSorts(s: seq<string>)
    requires forall i, j :: 0 <= i < j < |s| ==> s[i] != s[j]
    ensures Sorted(SortTexts(s)) && forall y :: y in SortTexts(s) <==> y in s
  {
    if s != [] {
      SortTextsSorts(s[1..]);
      assert s == [s[0]] + s[1..];
      InsertTextKeeps(s[0], SortTexts(s[1..]));
    }
  }

  // ---------- database keys: String(height).padStart(16, '0') ----------

  const KEY_WIDTH: nat := 16
  const KEY_LIMIT: nat := 1_0000_0000_0000_0000

  function Zeros(n: nat): string {
    seq(n, _ => '0')
  }

  function BlockKey(h: nat): string {
    var t := NatText(h);
    if |t| < KEY_WIDTH then Zeros(KEY_WIDTH - |t|) + t else t
  }

  function Pow10(w: nat): nat {
    if w == 0 then 1 else 10 * Pow10(w - 1)
  }

  /** The last w decimal digits of n. */
  function Fixed(n: nat, w: nat): (s: string)
    ensures |s| == w
  {
    if w == 0 then "" else Fixed(n / 10, w - 1) + [DigitChar(n % 10)]
  }

  lemma {:induction false} FixedIsPadded(n: nat, w: nat)
    requires 0 < w && n < Pow10(w)
    ensures |NatText(n)| <= w && Fixed(n, w) == Zeros(w - |NatText(n)|) + NatText(n)
  {
    if w == 1 {
      assert Pow10(1) == 10 * Pow10(0);
      assert Fixed(n / 10, 0) == "";
    } else if n < 10 {
      assert Pow10(w - 1) > 0 by { Pow10Positive(w - 1); }
      FixedIsPadded(0, w - 1);
      assert Fixed(n / 10, w - 1) == Zeros(w - 1);
    } else {
      FixedIsPadded(n / 10, w - 1);
    }
  }

  lemma {:induction false} Pow10Positive(w: nat)
    ensures Pow10(w) > 0
  {
    if w > 0 {
      Pow10Positive(w - 1);
    }
  }

  lemma {:induction false} FixedOrder(a: nat, b: nat, w: nat)
    requires a < b < Pow10(w)
    ensures LexLess(Fixed(a, w), Fixed(b, w))
  {
    if w > 0 {
      if a / 10 < b / 10 {
        FixedOrder(a / 10, b / 10, w - 1);
      }
      LexSameLengthExtends(Fixed(a / 10, w - 1), Fixed(b / 10, w - 1), [DigitChar(a % 10)], [DigitChar(b % 10)]);
    }
  }

  /** Padded keys sort exactly as the heights they stand for, for every height below 10^16. */
  lemma BlockKeyOrder(a: nat, b: nat)
    requires a < KEY_LIMIT && b < KEY_LIMIT
    ensures LexLess(BlockKey(a), BlockKey(b)) <==> a < b
  {
    KeyLimitIsPow10();
    FixedIsPadded(a, KEY_WIDTH);
    FixedIsPadded(b, KEY_WIDTH);
    assert BlockKey(a) == Fixed(a, KEY_WIDTH) && BlockKey(b) == Fixed(b, KEY_WIDTH);
    if a < b {
      FixedOrder(a, b, KEY_WIDTH);
    } else if b < a {
      FixedOrder(b, a, KEY_WIDTH);
      LexAsymmetric(BlockKey(b), BlockKey(a));
    } else if LexLess(BlockKey(a), BlockKey(b)) {
      LexAsymmetric(BlockKey(a), BlockKey(b));
    }
  }

  lemma KeyLimitIsPow10()
    ensures Pow10(KEY_WIDTH) == KEY_LIMIT
  {
    Pow10Plus4(0);
    Pow10Plus4(4);
    Pow10Plus4(8);
    Pow10Plus4(12);
  }

  lemma Pow10Plus4(w: nat)
    ensures Pow10(w + 4) == 10000 * Pow10(w)
  {
    assert Pow10(w + 2) == 100 * Pow10(w);
  }

  lemma {:induction false} RoundNumbers(w: nat)
    requires 0 < w
    ensures |NatText(Pow10(w))| == w + 1 && NatText(Pow10(w))[0] == '1'
    ensures Pow10(w) > 1 && |NatText(Pow10(w) - 1)| == w && NatText(Pow10(w) - 1)[0] == '9'
  {
    if w == 1 {
      assert Pow10(1) == 10 * Pow10(0);
    } else {
      RoundNumbers(w - 1);
      assert Pow10(w) / 10 == Pow10(w - 1) && (Pow10(w) - 1) / 10 == Pow10(w - 1) - 1;
    }
  }

  lemma {:induction false} ZerosKeepValue(n: nat, t: string)
    ensures NatValue(Zeros(n) + t) == NatValue(t)
  {
    if t != "" {
      assert (Zeros(n) + t)[..n + |t| - 1] == Zeros(n) + t[..|t| - 1];
      ZerosKeepValue(n, t[..|t| - 1]);
    } else if n > 0 {
      assert Zeros(n) + t == Zeros(n - 1) + "0";
      assert (Zeros(n - 1) + "0")[..n - 1] == Zeros(n - 1) + "";
      ZerosKeepValue(n - 1, "");
    }
  }

  /** A key has 16 digits and denotes its height. */
  lemma BlockKeyDenotes(h: nat)
    requires h < KEY_LIMIT
    ensures |BlockKey(h)| == 16 && NatValue(BlockKey(h)) == h
  {
    KeyLimitIsPow10();
    FixedIsPadded(h, KEY_WIDTH);
    NatTextDenotes(h);
    ZerosKeepValue(KEY_WIDTH - |NatText(h)|, NatText(h));
  }

  /** At the limit the order breaks: 10^16 has a 17th digit and sorts before its predecessor. */
  lemma BlockKeyOrderBreaks()
    ensures LexLess(BlockKey(KEY_LIMIT), BlockKey(KEY_LIMIT - 1))
  {
    KeyLimitIsPow10();
    RoundNumbers(KEY_WIDTH);
    assert BlockKey(KEY_LIMIT)[0] == '1' && BlockKey(KEY_LIMIT - 1)[0] == '9';
  }
}
