// Shared vocabulary: optional values, bytes, and the string operations the sources
// use (byte-wise order, splitting, trimming, decimal digits).
module Basics {
  datatype Option<+T> = None | Some(value: T)

  type byte = b: int | 0 <= b < 256
  type Bytes = seq<byte>

  function Min(a: int, b: int): int { if a < b then a else b }

  function Max(a: int, b: int): int { if a < b then b else a }

  // ---- Order of strings --------------------------------------------------------

  predicate StrLt(a: string, b: string) {
    b != "" && (a == "" || a[0] < b[0] || (a[0] == b[0] && StrLt(a[1..], b[1..])))
  }

  predicate StrLe(a: string, b: string) {
    a == b || StrLt(a, b)
  }

  lemma {:induction false} StrLtTotal(a: string, b: string)
    ensures StrLt(a, b) || StrLt(b, a) || a == b
    ensures !(StrLt(a, b) && StrLt(b, a))
    ensures a == b ==> !StrLt(a, b)
  {
    if a != "" && b != "" {
      StrLtTotal(a[1..], b[1..]);
      assert a == [a[0]] + a[1..] && b == [b[0]] + b[1..];
    }
  }

  lemma {:induction false} StrLtTransitive(a: string, b: string, c: string)
    requires StrLt(a, b) && StrLt(b, c)
    ensures StrLt(a, c)
  {
    if a != "" && a[0] == b[0] == c[0] {
      StrLtTransitive(a[1..], b[1..], c[1..]);
    }
  }

  // With heads of equal length, the heads decide unless they are equal.
  lemma {:induction false} StrLtHeads(p: string, x: string, q: string, y: string)
    requires |p| == |q|
    ensures StrLt(p + x, q + y) <==> StrLt(p, q) || (p == q && StrLt(x, y))
  {
    if p == "" {
      assert p + x == x && q + y == y;
    } else {
      assert (p + x)[1..] == p[1..] + x && (q + y)[1..] == q[1..] + y;
      StrLtHeads(p[1..], x, q[1..], y);
      assert p == [p[0]] + p[1..] && q == [q[0]] + q[1..];
    }
  }

  // ---- Splitting and trimming -----------------------------------------------------

  function IndexOf(s: string, c: char): (i: nat)
    requires c in s
    ensures i < |s| && s[i] == c && c !in s[..i]
  {
    if s[0] == c then 0 else 1 + IndexOf(s[1..], c)
  }

  function Split(s: string, c: char): (parts: seq<string>)
    ensures parts != []
    ensures forall k :: 0 <= k < |parts| ==> c !in parts[k]
  {
    if c !in s then [s] else [s[..IndexOf(s, c)]] + Split(s[IndexOf(s, c) + 1..], c)
  }

  lemma {:induction false} IndexOfHead(p: string, c: char, rest: string)
    requires c !in p
    ensures c in p + [c] + rest && IndexOf(p + [c] + rest, c) == |p|
  {
    assert (p + [c] + rest)[|p|] == c;
    if p != "" {
      assert (p + [c] + rest)[1..] == p[1..] + [c] + rest;
      IndexOfHead(p[1..], c, rest);
    }
  }

  lemma SplitHead(p: string, c: char, rest: string)
    requires c !in p
    ensures Split(p + [c] + rest, c) == [p] + Split(rest, c)
  {
    var s := p + [c] + rest;
    IndexOfHead(p, c, rest);
    assert s[..|p|] == p && s[|p| + 1..] == rest;
  }

  lemma SplitWhole(s: string, c: char)
    requires c !in s
    ensures Split(s, c) == [s]
  {
  }

  lemma SplitThree(x: string, y: string, z: string, c: char)
    requires c !in x && c !in y && c !in z
    ensures Split(x + [c] + (y + [c] + z), c) == [x, y, z]
  {
    SplitHead(x, c, y + [c] + z);
    SplitHead(y, c, z);
    SplitWhole(z, c);
  }

  function TrimEnd(s: string, c: char): string {
    if s != "" && s[|s| - 1] == c then TrimEnd(s[..|s| - 1], c) else s
  }

  lemma {:induction false} TrimEndTail(a: string, b: string, c: char)
    requires TrimEnd(b, c) != ""
    ensures TrimEnd(a + b, c) == a + TrimEnd(b, c)
  {
    assert (a + b)[..|a + b| - 1] == a + b[..|b| - 1];
    if b[|b| - 1] == c {
      TrimEndTail(a, b[..|b| - 1], c);
    }
  }

  lemma TrimEndOne(t: string, c: char)
    requires t != "" && t[|t| - 1] != c
    ensures TrimEnd(t + [c], c) == t
  {
    assert (t + [c])[..|t|] == t;
  }

  function TrimStart(s: string, c: char): string {
    if s != "" && s[0] == c then TrimStart(s[1..], c) else s
  }

  // ---- Decimal numbers ---------------------------------------------------------------

  predicate IsDigit(c: char) { '0' <= c <= '9' }

  predicate AllDigits(s: string) { forall c :: c in s ==> IsDigit(c) }

  function DigitValue(c: char): int { c as int - '0' as int }

  function DigitsValue(s: string): int {
    if s == "" then 0 else 10 * DigitsValue(s[..|s| - 1]) + DigitValue(s[|s| - 1])
  }

  // `str::parse::<i64>`: an optional sign, at least one digit, within range.
  function ParseInt(s: string): Option<int> {
    var signed := s != "" && (s[0] == '-' || s[0] == '+');
    var digits := if signed then s[1..] else s;
    if digits == "" || !AllDigits(digits) then None
    else
      var n := if signed && s[0] == '-' then -DigitsValue(digits) else DigitsValue(digits);
      if -0x8000_0000_0000_0000 <= n < 0x8000_0000_0000_0000 then Some(n) else None
  }

  lemma {:induction false} DigitsPositive(s: string)
    requires AllDigits(s)
    ensures DigitsValue(s) >= 0
  {
    if s != "" {
      assert s[|s| - 1] in s;
      DigitsPositive(s[..|s| - 1]);
    }
  }

  // Digits with or without a sign are read; nothing else is.
  lemma ParseIntReads(digits: string)
    requires digits != "" && AllDigits(digits)
    ensures var n := DigitsValue(digits); var up := if n < 0x8000_0000_0000_0000 then Some(n) else None;
      && ParseInt(digits) == up && ParseInt("+" + digits) == up
      && ParseInt("-" + digits) == if n <= 0x8000_0000_0000_0000 then Some(-n) else None
  {
    DigitsPositive(digits);
    assert digits[0] in digits;
    assert ("+" + digits)[1..] == digits && ("-" + digits)[1..] == digits;
    hide DigitsValue;
  }

  lemma ParseIntUnread(s: string)
    requires ParseInt(s).Some?
    ensures exists digits ::
      digits != "" && AllDigits(digits) && (s == digits || s == "+" + digits || s == "-" + digits)
  {
    hide DigitsValue;
    if s[0] == '-' || s[0] == '+' {
      assert s == [s[0]] + s[1..];
    }
  }

  function Pow10(w: nat): nat { if w == 0 then 1 else 10 * Pow10(w - 1) }

  // `n` in exactly `w` digits.
  function Pad(n: nat, w: nat): (s: string)
    requires n < Pow10(w)
    ensures |s| == w && AllDigits(s) && DigitsValue(s) == n
  {
    if w == 0 then ""
    else
      var s := Pad(n / 10, w - 1) + [('0' as int + n % 10) as char];
      assert s[..|s| - 1] == Pad(n / 10, w - 1);
      s
  }

  lemma PadSplit(n: nat, w: nat)
    requires 0 < w && n < Pow10(w)
    ensures n / 10 < Pow10(w - 1) && Pad(n, w) == Pad(n / 10, w - 1) + [('0' as int + n % 10) as char]
  {
    hide DigitsValue;
  }

  // Numbers of one width sort as strings the way they sort as numbers.
  lemma {:induction false} PadOrder(a: nat, b: nat, w: nat)
    requires a < Pow10(w) && b < Pow10(w)
    ensures StrLt(Pad(a, w), Pad(b, w)) <==> a < b
  {
    if w > 0 {
      PadSplit(a, w);
      PadSplit(b, w);
      hide Pad, DigitsValue, Pow10;
      PadOrder(a / 10, b / 10, w - 1);
      var x, y := [('0' as int + a % 10) as char], [('0' as int + b % 10) as char];
      StrLtHeads(Pad(a / 10, w - 1), x, Pad(b / 10, w - 1), y);
      assert StrLt(x, y) <==> a % 10 < b % 10;
      hide StrLt;
      assert a / 10 == b / 10 <==> Pad(a / 10, w - 1) == Pad(b / 10, w - 1);
    }
  }
}
