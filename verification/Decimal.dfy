/** strconv's decimal parsing, with its ranges and its results on error. */
module Decimal {

  const MAX_UINT64: nat := 0xFFFF_FFFF_FFFF_FFFF
  const MAX_INT64: nat := 0x7FFF_FFFF_FFFF_FFFF

  /** strconv also reports a value on error: zero for bad syntax, the bound for a bad range. */
  datatype Parsed = Parsed(value: int, ok: bool)

  lemma Limits()
    ensures MAX_UINT64 == 18_446_744_073_709_551_615 && MAX_INT64 == 9_223_372_036_854_775_807
  {
  }

  predicate IsDigit(c: char) { '0' <= c <= '9' }

  function Digit(c: char): (d: nat)
    requires IsDigit(c)
    ensures d < 10
  {
    (c - '0') as int
  }

  predicate AllDigits(s: string) { forall i | 0 <= i < |s| :: IsDigit(s[i]) }

  /** The number a digit string denotes. */
  function ValueOf(s: string): nat
    requires AllDigits(s)
  {
    if s == [] then 0 else ValueOf(s[..|s| - 1]) * 10 + Digit(s[|s| - 1])
  }

  /** Left to right, stopping at the first character that is no digit or overflows `max`. */
  function Scan(s: string, acc: nat, max: nat): (p: Parsed)
    ensures p.value >= 0
  {
    if s == [] then Parsed(acc, true)
    else if !IsDigit(s[0]) then Parsed(0, false)
    else
      var next := acc * 10 + Digit(s[0]);
      if next > max then Parsed(max, false) else Scan(s[1..], next, max)
  }

  function ParseUint(s: string): (p: Parsed)
    ensures p.value >= 0
  {
    if s == [] then Parsed(0, false) else Scan(s, 0, MAX_UINT64)
  }

  /** A number read as unsigned, cut to `max`; bad syntax stays bad syntax. */
  function Cut(p: Parsed, max: nat): Parsed {
    if !p.ok && p.value == 0 then p else if p.value > max then Parsed(max, false) else p
  }

  /** strconv.Atoi on a 64-bit machine.  It reads an unsigned number before it looks at
      the range of the signed one. */
  function Atoi(s: string): Parsed {
    if s != [] && s[0] == '-' then
      var p := Cut(ParseUint(s[1..]), MAX_INT64 + 1);
      Parsed(-p.value, p.ok)
    else if s != [] && s[0] == '+' then Cut(ParseUint(s[1..]), MAX_INT64)
    else Cut(ParseUint(s), MAX_INT64)
  }

  lemma {:induction false} ValueConcat(a: string, c: char)
    requires AllDigits(a) && IsDigit(c)
    ensures ValueOf(a + [c]) == ValueOf(a) * 10 + Digit(c)
  {
    assert (a + [c])[..|a|] == a;
  }

  /** A prefix never denotes more than the whole. */
  lemma {:induction false} ValuePrefix(s: string, i: nat)
    requires AllDigits(s) && i <= |s|
    ensures ValueOf(s[..i]) <= ValueOf(s)
  {
    if i == |s| {
      assert s[..i] == s;
    } else {
      var init := s[..|s| - 1];
      ValuePrefix(init, i);
      assert init[..i] == s[..i];
    }
  }

  /** One more digit. */
  lemma ScanStep(s: string, i: nat, acc: nat, max: nat)
    requires i < |s| && IsDigit(s[i])
    ensures var next := acc * 10 + Digit(s[i]);
      Scan(s[i..], acc, max) == if next > max then Parsed(max, false) else Scan(s[i + 1..], next, max)
  {
    assert s[i..][0] == s[i] && s[i..][1..] == s[i + 1..];
  }

  /** The scan returns the denoted number exactly when the string is all digits and
      in range. */
  lemma {:induction false} ScanExact(s: string, i: nat, max: nat)
    requires AllDigits(s) && i <= |s| && ValueOf(s[..i]) <= max
    ensures Scan(s[i..], ValueOf(s[..i]), max)
         == if ValueOf(s) <= max then Parsed(ValueOf(s), true) else Parsed(max, false)
    decreases |s| - i
  {
    if i == |s| {
      assert s[..i] == s;
    } else {
      assert s[..i + 1] == s[..i] + [s[i]];
      ValueConcat(s[..i], s[i]);
      ScanStep(s, i, ValueOf(s[..i]), max);
      ValuePrefix(s, i + 1);
      if ValueOf(s[..i + 1]) <= max { ScanExact(s, i + 1, max); }
    }
  }

  lemma DigitsParse(s: string)
    requires AllDigits(s) && s != []
    ensures ParseUint(s) == if ValueOf(s) <= MAX_UINT64 then Parsed(ValueOf(s), true) else Parsed(MAX_UINT64, false)
    ensures Atoi(s) == if ValueOf(s) <= MAX_INT64 then Parsed(ValueOf(s), true) else Parsed(MAX_INT64, false)
  {
    assert s[..0] == [] && s[0..] == s;
    ScanExact(s, 0, MAX_UINT64);
  }

  lemma {:induction false} ScanAccepts(s: string, acc: nat, max: nat)
    ensures Scan(s, acc, max).ok ==> AllDigits(s)
  {
    if s != [] && IsDigit(s[0]) {
      var next := acc * 10 + Digit(s[0]);
      if next <= max {
        ScanAccepts(s[1..], next, max);
        assert forall i | 0 < i < |s| :: s[i] == s[1..][i - 1];
      }
    }
  }

  /** Exactly the digit strings in range are accepted. */
  lemma ParseAccepts(s: string)
    ensures ParseUint(s).ok <==> s != [] && AllDigits(s) && ValueOf(s) <= MAX_UINT64
  {
    ScanAccepts(s, 0, MAX_UINT64);
    if s != [] && AllDigits(s) { DigitsParse(s); }
  }

  // ---- strings.TrimSpace ----

  /** unicode.IsSpace */
  predicate IsSpace(c: char) {
    var n := c as int;
    || 9 <= n <= 13 || n == 32 || n == 0x85 || n == 0xA0 || n == 0x1680 || 0x2000 <= n <= 0x200A
    || n == 0x2028 || n == 0x2029 || n == 0x202F || n == 0x205F || n == 0x3000
  }

  predicate AllSpace(s: string) { forall i | 0 <= i < |s| :: IsSpace(s[i]) }

  function TrimSpace(s: string): string {
    if s == [] then []
    else if IsSpace(s[0]) then TrimSpace(s[1..])
    else if IsSpace(s[|s| - 1]) then TrimSpace(s[..|s| - 1])
    else s
  }

  /** Surrounding white space is removed, and nothing else. */
  lemma {:induction false} TrimInverts(a: string, s: string, b: string)
    requires AllSpace(a) && AllSpace(b) && (s == [] || (!IsSpace(s[0]) && !IsSpace(s[|s| - 1])))
    ensures TrimSpace(a + s + b) == s
    decreases |a| + |b|
  {
    var all := a + s + b;
    if a != [] {
      TrimInverts(a[1..], s, b);
      assert all[1..] == a[1..] + s + b;
    } else if b != [] && s == [] {
      TrimInverts(a, s, b[1..]);
      assert all[1..] == a + s + b[1..];
    } else if b != [] {
      TrimInverts(a, s, b[..|b| - 1]);
      assert all[..|all| - 1] == a + s + b[..|b| - 1];
    } else {
      assert all == s;
    }
  }
}
