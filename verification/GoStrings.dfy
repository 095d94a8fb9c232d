// The string operations of Go's strings and strconv packages that the program relies on.

module GoStrings {

  predicate HasPrefix(s: string, prefix: string) {
    prefix <= s
  }

  predicate HasSuffix(s: string, suffix: string) {
    |suffix| <= |s| && s[|s| - |suffix|..] == suffix
  }

  function TrimPrefix(s: string, prefix: string): string {
    if HasPrefix(s, prefix) then s[|prefix|..] else s
  }

  function TrimSuffix(s: string, suffix: string): string {
    if HasSuffix(s, suffix) then s[..|s| - |suffix|] else s
  }

  // The position of the first occurrence of a character, or the length of the string.
  function Index(s: string, c: char): (i: nat)
    ensures i <= |s|
    ensures i < |s| ==> s[i] == c
    ensures c !in s[..i]
  {
    if s == [] || s[0] == c then 0 else
    var i := 1 + Index(s[1..], c);
    assert s[..i] == [s[0]] + s[1..][..i - 1];
    i
  }

  lemma {:induction false} IndexBefore(s: string, c: char, k: nat)
    requires k < |s| && s[k] == c
    ensures Index(s, c) <= k
  {
    if s[0] != c {
      IndexBefore(s[1..], c, k - 1);
    }
  }

  // What precedes and what follows the first occurrence, and whether there is one.
  function Cut(s: string, c: char): (r: (string, string, bool))
    ensures r.2 <==> c in s
    ensures r.2 ==> s == r.0 + [c] + r.1 && c !in r.0
    ensures !r.2 ==> r.0 == s && r.1 == ""
  {
    var i := Index(s, c);
    if i < |s| then
      assert s == s[..i] + [s[i]] + s[i + 1..];
      (s[..i], s[i + 1..], true)
    else
      assert s[..i] == s;
      (s, "", false)
  }

  function Split(s: string, c: char): (parts: seq<string>)
    ensures parts != []
    decreases |s|
  {
    var i := Index(s, c);
    if i < |s| then [s[..i]] + Split(s[i + 1..], c) else [s]
  }

  function LastPart(s: string, c: char): string {
    var parts := Split(s, c);
    parts[|parts| - 1]
  }

  lemma CutAt(before: string, c: char, after: string)
    requires c !in before
    ensures Cut(before + [c] + after, c) == (before, after, true)
  {
    var s := before + [c] + after;
    var i := Index(s, c);
    assert s[|before|] == c;
    IndexBefore(s, c, |before|);
    assert forall j :: 0 <= j < |before| ==> s[j] == before[j];
    assert s[..i] == before && s[i + 1..] == after;
  }

  // The last part of a string that ends in a part without the separator.
  lemma {:induction false} LastPartAt(before: string, c: char, last: string)
    requires c !in last
    ensures LastPart(before + [c] + last, c) == last
    decreases |before|
  {
    var s := before + [c] + last;
    var i := Index(s, c);
    assert s[|before|] == c;
    IndexBefore(s, c, |before|);
    if i == |before| {
      assert s[i + 1..] == last;
      NoSplit(last, c);
    } else {
      assert s[i + 1..] == before[i + 1..] + [c] + last;
      LastPartAt(before[i + 1..], c, last);
    }
  }

  lemma NoSplit(s: string, c: char)
    requires c !in s
    ensures Split(s, c) == [s]
  {
  }

  // ---------------------------------------------------------------- decimal numbers

  predicate IsDigit(c: char) {
    '0' <= c <= '9'
  }

  predicate AllDigits(s: string) {
    forall i :: 0 <= i < |s| ==> IsDigit(s[i])
  }

  function DigitChar(d: nat): (c: char)
    requires d < 10
    ensures IsDigit(c)
  {
    ('0' as int + d) as char
  }

  function DigitValue(c: char): (d: nat)
    requires IsDigit(c)
    ensures d < 10
  {
    c as int - '0' as int
  }

  // Canonical decimal.
  function Itoa(n: nat): (s: string)
    ensures s != [] && AllDigits(s)
    ensures n > 0 ==> s[0] != '0'
  {
    if n < 10 then [DigitChar(n)] else Itoa(n / 10) + [DigitChar(n % 10)]
  }

  function FormatInt(n: int): string {
    if n < 0 then "-" + Itoa(-n) else Itoa(n)
  }

  function Decimal(s: string): nat
    requires AllDigits(s)
  {
    if s == [] then 0 else 10 * Decimal(s[..|s| - 1]) + DigitValue(s[|s| - 1])
  }

  lemma {:induction false} DecimalOfItoa(n: nat)
    ensures Decimal(Itoa(n)) == n
  {
    var s := Itoa(n);
    if n >= 10 {
      DecimalOfItoa(n / 10);
      assert s[..|s| - 1] == Itoa(n / 10);
    } else {
      assert s[..|s| - 1] == [];
    }
  }

  // strconv.Atoi accepts the string: an optional sign and digits that fit 64 bits.
  predicate IsAtoi(s: string) {
    var digits := if s != [] && (s[0] == '-' || s[0] == '+') then s[1..] else s;
    digits != [] && AllDigits(digits) &&
    (if s[0] == '-' then Decimal(digits) <= 0x8000_0000_0000_0000 else Decimal(digits) < 0x8000_0000_0000_0000)
  }

  datatype Parsed = NoNumber | Number(value: int)

  function Lower(c: char): char {
    if 'A' <= c <= 'Z' then (c as int + 32) as char else c
  }

  // The value of a character as a digit of a base up to 36, or 36.
  function BaseDigit(c: char): nat {
    if IsDigit(c) then DigitValue(c)
    else if 'a' <= Lower(c) <= 'z' then Lower(c) as int - 'a' as int + 10
    else 36
  }

  function InBase(s: string, base: nat): Parsed {
    if s == [] then Number(0) else
    var high := InBase(s[..|s| - 1], base);
    if high.NoNumber? || BaseDigit(s[|s| - 1]) >= base then NoNumber
    else Number(high.value * base + BaseDigit(s[|s| - 1]))
  }

  // The base that a literal names by its first characters, and the digits behind them.
  function BaseOf(s: string): (nat, string) {
    if s == [] || s[0] != '0' then (10, s)
    else if |s| >= 3 && Lower(s[1]) == 'b' then (2, s[2..])
    else if |s| >= 3 && Lower(s[1]) == 'o' then (8, s[2..])
    else if |s| >= 3 && Lower(s[1]) == 'x' then (16, s[2..])
    else (8, s[1..])
  }

  // strconv.ParseInt(s, 0, 32) on literals without digit separators.
  function ParseInt32(s: string): Parsed {
    if s == [] then NoNumber else
    var negative := s[0] == '-';
    var body := if s[0] == '-' || s[0] == '+' then s[1..] else s;
    if body == [] then NoNumber else
    var (base, digits) := BaseOf(body);
    var n := InBase(digits, base);
    if n.NoNumber? then NoNumber
    else if !negative && n.value >= 0x8000_0000 then NoNumber
    else if negative && n.value > 0x8000_0000 then NoNumber
    else Number(if negative then -n.value else n.value)
  }

  lemma {:induction false} InBaseTen(s: string)
    requires AllDigits(s)
    ensures InBase(s, 10) == Number(Decimal(s))
  {
    if s != [] {
      InBaseTen(s[..|s| - 1]);
      assert IsDigit(s[|s| - 1]);
    }
  }

  // Canonical decimals of 32-bit numbers read back, and larger ones are refused.
  lemma ParseOfItoa(n: nat)
    ensures ParseInt32(Itoa(n)) == if n < 0x8000_0000 then Number(n) else NoNumber
  {
    var s := Itoa(n);
    assert IsDigit(s[0]);
    InBaseTen(s);
    DecimalOfItoa(n);
    if n == 0 {
      assert s == "0" && s[1..] == [];
    }
  }

  lemma ItoaInjective(a: nat, b: nat)
    requires Itoa(a) == Itoa(b)
    ensures a == b
  {
    DecimalOfItoa(a);
    DecimalOfItoa(b);
  }

  lemma {:induction false} ItoaHasNo(n: nat, c: char)
    requires !IsDigit(c)
    ensures c !in Itoa(n)
  {
    var s := Itoa(n);
    assert forall i :: 0 <= i < |s| ==> IsDigit(s[i]);
  }
}
