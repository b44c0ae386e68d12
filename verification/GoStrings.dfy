/** The few Go string operations the mapping parsers call. */
module GoStrings {
  import opened Basics

  datatype Cutting = Cutting(before: string, after: string, found: bool)

  /** strings.Cut with a one-character separator. */
  function Cut(s: string, sep: char): (r: Cutting)
    ensures r.found ==> s == r.before + [sep] + r.after && sep !in r.before
    ensures !r.found ==> r.before == s && r.after == "" && sep !in s
    ensures |r.after| <= |s| && (r.found ==> |r.after| < |s|)
  {
    if s == "" then Cutting("", "", false)
    else if s[0] == sep then Cutting("", s[1..], true)
    else
      var r := Cut(s[1..], sep);
      Cutting([s[0]] + r.before, r.after, r.found)
  }

  /** strings.SplitN with a one-character separator and n > 0. */
  function SplitN(s: string, sep: char, n: nat): (r: seq<string>)
    requires 0 < n
    ensures 1 <= |r| <= n
    decreases n
  {
    var c := Cut(s, sep);
    if n == 1 || !c.found then [s] else [c.before] + SplitN(c.after, sep, n - 1)
  }

  function TrimPrefix(s: string, prefix: string): string {
    if prefix <= s then s[|prefix|..] else s
  }

  predicate IsDigit(c: char) {
    '0' <= c <= '9'
  }

  function DigitsValue(s: string): nat
    requires forall c :: c in s ==> IsDigit(c)
  {
    if s == "" then 0
    else
      assert s[|s| - 1] in s && IsDigit(s[|s| - 1]);
      DigitsValue(s[..|s| - 1]) * 10 + (s[|s| - 1] as int - '0' as int)
  }

  /** strconv.Atoi: an optional sign, at least one digit, and a value that fits in 64 bits. */
  function Atoi(s: string): (r: Option<int>)
    ensures r.Some? ==> -MAX_INT64 - 1 <= r.value <= MAX_INT64
  {
    var negative := s != "" && s[0] == '-';
    var digits := if s != "" && (s[0] == '-' || s[0] == '+') then s[1..] else s;
    if digits == "" || exists c :: c in digits && !IsDigit(c) then None
    else
      var n: int := DigitsValue(digits);
      var value := if negative then -n else n;
      if -MAX_INT64 - 1 <= value <= MAX_INT64 then Some(value) else None
  }

  /** Cutting at the first separator is splitting in two. */
  lemma CutIsSplitInTwo(s: string, sep: char)
    ensures SplitN(s, sep, 2) == (if Cut(s, sep).found then [Cut(s, sep).before, Cut(s, sep).after] else [s])
  {
    var c := Cut(s, sep);
    if c.found {
      assert SplitN(c.after, sep, 1) == [c.after];
    }
  }

  lemma {:induction false} CutAfterPrefix(prefix: string, s: string, sep: char)
    requires sep !in prefix
    ensures Cut(prefix + [sep] + s, sep) == Cutting(prefix, s, true)
  {
    var t := prefix + [sep] + s;
    if prefix == "" {
      assert t == [sep] + s;
    } else {
      assert t[1..] == prefix[1..] + [sep] + s;
      CutAfterPrefix(prefix[1..], s, sep);
      assert [prefix[0]] + prefix[1..] == prefix;
    }
  }

  /** The usual decimal form of a number. */
  function Decimal(n: nat): (s: string)
    ensures s != "" && forall c :: c in s ==> IsDigit(c)
  {
    var last := ('0' as int + n % 10) as char;
    if n < 10 then [last] else Decimal(n / 10) + [last]
  }

  /** Reading a number back from its decimal form. */
  lemma {:induction false} DecimalRoundTrip(n: nat)
    ensures DigitsValue(Decimal(n)) == n
    ensures n <= MAX_INT64 ==> Atoi(Decimal(n)) == Some(n)
  {
    var s := Decimal(n);
    if n < 10 {
      assert s[..0] == "";
    } else {
      DecimalRoundTrip(n / 10);
      assert s[..|s| - 1] == Decimal(n / 10);
    }
    assert IsDigit(s[0]);
  }

  lemma SignedDecimal(n: nat)
    requires n <= MAX_INT64
    ensures var value: int := n; Atoi(['-'] + Decimal(n)) == Some(-value) && Atoi(['+'] + Decimal(n)) == Some(value)
  {
    DecimalRoundTrip(n);
    var s := Decimal(n);
    assert (['-'] + s)[1..] == s && (['+'] + s)[1..] == s;
  }

  /** Whatever Atoi reads is digits after at most one sign. */
  lemma AtoiNeedsDigits(s: string)
    requires Atoi(s).Some?
    ensures s != "" && forall i | 0 < i < |s| :: IsDigit(s[i])
    ensures IsDigit(s[0]) || (1 < |s| && (s[0] == '-' || s[0] == '+'))
  {
    var digits := if s[0] == '-' || s[0] == '+' then s[1..] else s;
    assert forall c :: c in digits ==> IsDigit(c);
    assert forall i | 0 < i < |s| :: s[i] in digits;
    assert digits == s ==> s[0] in digits;
  }
}
