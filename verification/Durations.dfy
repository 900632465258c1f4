/** pkg/cluster/exec.go, parseDuration: intervals and timeouts such as 1D12h, 15m10s or 8. */
module Durations {
  import opened Views
  import opened Decimal

  const SECOND: int := 1_000_000_000
  const MINUTE: int := 60 * SECOND
  const HOUR: int := 60 * MINUTE
  const DAY: int := 24 * HOUR

  /** The optional groups of the pattern, in order.  T stands alone, the others follow digits. */
  const UNITS: string := "YMDThms"

  function Weight(unit: char): int {
    match unit
    case 'Y' => 365 * DAY
    case 'M' => 30 * DAY
    case 'D' => DAY
    case 'h' => HOUR
    case 'm' => MINUTE
    case 's' => SECOND
    case _ => 0
  }

  /** The units in nanoseconds: a year has 365 days, a month 30. */
  lemma Weights()
    ensures UNITS == ['Y', 'M', 'D', 'T', 'h', 'm', 's']
    ensures Weight('Y') == 365 * 24 * 3600 * 1_000_000_000 && Weight('M') == 30 * 24 * 3600 * 1_000_000_000
    ensures Weight('D') == 24 * 3600 * 1_000_000_000 && Weight('h') == 3600 * 1_000_000_000
    ensures Weight('m') == 60 * 1_000_000_000 && Weight('s') == 1_000_000_000 && Weight('T') == 0
  {
  }

  /** Conversion of an exact result to Go's int64. */
  function Wrap64(n: int): int {
    (n + 0x8000_0000_0000_0000) % 0x1_0000_0000_0000_0000 - 0x8000_0000_0000_0000
  }

  function DigitRun(s: string): (k: nat)
    ensures k <= |s| && AllDigits(s[..k]) && (k < |s| ==> !IsDigit(s[k]))
  {
    if s == [] || !IsDigit(s[0]) then 0
    else
      var k := 1 + DigitRun(s[1..]);
      assert forall i | 0 < i < k :: s[..k][i] == s[1..][..k - 1][i - 1];
      k
  }

  /** Matches one optional group; the group is given without its unit letter. */
  function Take(unit: char, s: string): Option<string> {
    var k := if unit == 'T' then 0 else DigitRun(s);
    if k < |s| && s[k] == unit && (unit == 'T' || k > 0) then Some(s[..k]) else None
  }

  /** The greedy match of all groups at the start of the string. */
  function Match(units: string, s: string): (parts: seq<Option<string>>)
    ensures |parts| == |units|
  {
    if units == [] then []
    else
      var part := Take(units[0], s);
      var rest := if part.Some? then s[|part.value| + 1..] else s;
      [part] + Match(units[1..], rest)
  }

  /** parseInt64: a group that is absent, empty or out of range counts as zero. */
  function Amount(part: Option<string>): int {
    if part.None? then 0 else var p := Atoi(part.value); if p.ok then p.value else 0
  }

  function Total(units: string, parts: seq<Option<string>>): int
    requires |parts| == |units|
  {
    if units == [] then 0
    else Amount(parts[0]) * Weight(units[0]) + Total(units[1..], parts[1..])
  }

  /** If no group matches, the text is a number of seconds. */
  function ParseWith(units: string, s: string): int {
    var parts := Match(units, s);
    if forall i | 0 <= i < |parts| :: parts[i].None? then Wrap64(Atoi(s).value * SECOND)
    else Wrap64(Total(units, parts))
  }

  /** An interval in nanoseconds. */
  function ParseDuration(text: Option<string>): int {
    if text.None? then 0 else ParseWith(UNITS, text.value)
  }

  // ---- the notation it reads ----

  /** Digits for every unit that is present, and nothing but itself for T. */
  ghost predicate WellFormed(units: string, parts: seq<Option<string>>) {
    && |parts| == |units|
    && (forall i, j | 0 <= i < j < |units| :: units[i] != units[j])
    && (forall i | 0 <= i < |units| :: !IsDigit(units[i]))
    && forall i | 0 <= i < |parts| && parts[i].Some? ::
         AllDigits(parts[i].value) && (units[i] == 'T' <==> parts[i].value == "")
  }

  function Write(units: string, parts: seq<Option<string>>): string
    requires |parts| == |units|
  {
    if units == [] then ""
    else (if parts[0].Some? then parts[0].value + [units[0]] else "") + Write(units[1..], parts[1..])
  }

  lemma {:induction false} RunOfDigits(d: string, c: char, rest: string)
    requires AllDigits(d) && !IsDigit(c)
    ensures DigitRun(d + [c] + rest) == |d|
  {
    var s := d + [c] + rest;
    if d != [] {
      RunOfDigits(d[1..], c, rest);
      assert s[1..] == d[1..] + [c] + rest;
    }
  }

  /** A group that is absent is not mistaken for a later one. */
  lemma {:induction false} NotTaken(unit: char, units: string, parts: seq<Option<string>>)
    requires WellFormed(units, parts) && unit !in units && !IsDigit(unit)
    ensures Take(unit, Write(units, parts)) == None
  {
    if units != [] {
      if parts[0].None? {
        NotTaken(unit, units[1..], parts[1..]);
        assert Write(units, parts) == Write(units[1..], parts[1..]);
      } else {
        var d, s := parts[0].value, Write(units, parts);
        RunOfDigits(d, units[0], Write(units[1..], parts[1..]));
        assert s[|d|] == units[0];
        if unit == 'T' { assert s[0] != 'T'; }
      }
    }
  }

  /** A group that is present is taken, and leaves the rest. */
  lemma Taken(unit: char, d: string, rest: string)
    requires AllDigits(d) && !IsDigit(unit) && (unit == 'T' <==> d == "")
    ensures Take(unit, d + [unit] + rest) == Some(d) && (d + [unit] + rest)[|d| + 1..] == rest
  {
    RunOfDigits(d, unit, rest);
    assert (d + [unit] + rest)[..|d|] == d;
  }

  lemma MatchPresent(units: string, d: string, rest: string)
    requires units != [] && AllDigits(d) && !IsDigit(units[0]) && (units[0] == 'T' <==> d == "")
    ensures Match(units, d + [units[0]] + rest) == [Some(d)] + Match(units[1..], rest)
  {
    Taken(units[0], d, rest);
  }

  lemma {:induction false} MatchInverts(units: string, parts: seq<Option<string>>)
    requires WellFormed(units, parts)
    ensures Match(units, Write(units, parts)) == parts
  {
    if units != [] {
      var rest := Write(units[1..], parts[1..]);
      assert Match(units, Write(units, parts)) == [parts[0]] + Match(units[1..], rest) by {
        if parts[0].Some? {
          MatchPresent(units, parts[0].value, rest);
        } else {
          NotTaken(units[0], units[1..], parts[1..]);
          assert Write(units, parts) == rest;
        }
      }
      MatchInverts(units[1..], parts[1..]);
    }
  }

  /** The exact weighted sum a notation denotes. */
  ghost function Denoted(units: string, parts: seq<Option<string>>): nat
    requires WellFormed(units, parts)
  {
    if units == [] then 0
    else
      (if parts[0].Some? then Times(ValueOf(parts[0].value), Weight(units[0])) else 0)
      + Denoted(units[1..], parts[1..])
  }

  function Times(n: nat, w: int): nat
    requires w >= 0
  {
    n * w
  }

  lemma TimesBound(n: nat, w: int, max: nat)
    requires w >= 0 && Times(n, w) <= max
    ensures w == 0 || n <= max
  {
    if w > 0 { assert n * w >= n * 1; }
  }

  /** Every component fits into 63 bits; T has none. */
  ghost predicate InRange(parts: seq<Option<string>>) {
    forall i | 0 <= i < |parts| && parts[i].Some? && AllDigits(parts[i].value) :: ValueOf(parts[i].value) <= MAX_INT64
  }

  /** The same notation without the components that are out of range. */
  function Readable(parts: seq<Option<string>>): (r: seq<Option<string>>)
    ensures |r| == |parts|
    ensures forall i | 0 <= i < |parts| ::
      r[i] == if parts[i].Some? && AllDigits(parts[i].value) && ValueOf(parts[i].value) > MAX_INT64 then None else parts[i]
  {
    seq(|parts|, i requires 0 <= i < |parts| =>
      if parts[i].Some? && AllDigits(parts[i].value) && ValueOf(parts[i].value) > MAX_INT64 then None else parts[i])
  }

  /** The total is the weighted sum of the components in range; the others count as zero. */
  lemma {:induction false} TotalIsSum(units: string, parts: seq<Option<string>>)
    requires WellFormed(units, parts)
    ensures WellFormed(units, Readable(parts)) && Total(units, parts) == Denoted(units, Readable(parts))
  {
    if units != [] {
      TotalIsSum(units[1..], parts[1..]);
      assert Readable(parts)[1..] == Readable(parts[1..]);
      if parts[0].Some? && units[0] != 'T' { DigitsParse(parts[0].value); }
    }
  }

  /** Below 2^63 nanoseconds no component is out of range, so the total is exact. */
  lemma {:induction false} TotalIsExact(units: string, parts: seq<Option<string>>)
    requires WellFormed(units, parts) && Denoted(units, parts) <= MAX_INT64
    ensures Total(units, parts) == Denoted(units, parts)
  {
    if units != [] {
      TotalIsExact(units[1..], parts[1..]);
      if parts[0].Some? && units[0] != 'T' {
        var d := parts[0].value;
        DigitsParse(d);
        TimesBound(ValueOf(d), Weight(units[0]), MAX_INT64);
      }
    }
  }

  lemma AllReadable(parts: seq<Option<string>>)
    requires InRange(parts)
    ensures Readable(parts) == parts
  {
  }

  /** The result is in range and differs by a multiple of 2^64: Go's arithmetic. */
  lemma Wraps(n: int)
    ensures -0x8000_0000_0000_0000 <= Wrap64(n) < 0x8000_0000_0000_0000
    ensures exists k: int :: Wrap64(n) == n - k * 0x1_0000_0000_0000_0000
  {
    var k := (n + 0x8000_0000_0000_0000) / 0x1_0000_0000_0000_0000;
    assert Wrap64(n) == n - k * 0x1_0000_0000_0000_0000;
  }

  lemma WrapExact(n: int)
    requires 0 <= n <= MAX_INT64
    ensures Wrap64(n) == n
  {
  }

  lemma ParseWithInverts(units: string, parts: seq<Option<string>>)
    requires WellFormed(units, parts) && exists i | 0 <= i < |parts| :: parts[i].Some?
    ensures WellFormed(units, Readable(parts))
    ensures ParseWith(units, Write(units, parts)) == Wrap64(Denoted(units, Readable(parts)))
    ensures InRange(parts) ==> ParseWith(units, Write(units, parts)) == Wrap64(Denoted(units, parts))
    ensures Denoted(units, parts) <= MAX_INT64 ==> ParseWith(units, Write(units, parts)) == Denoted(units, parts)
  {
    MatchInverts(units, parts);
    TotalIsSum(units, parts);
    if InRange(parts) { AllReadable(parts); }
    if Denoted(units, parts) <= MAX_INT64 {
      TotalIsExact(units, parts);
      WrapExact(Denoted(units, parts));
    }
  }

  /** parseDuration inverts the notation.  Any choice of groups, in order, is read back as
      its weighted sum modulo 2^64 if every component is below 2^63, and exactly if the sum
      is below 2^63 nanoseconds.  Components from 2^63 on count as zero. */
  lemma ParseInverts(parts: seq<Option<string>>)
    requires WellFormed(UNITS, parts) && exists i | 0 <= i < |parts| :: parts[i].Some?
    ensures WellFormed(UNITS, Readable(parts))
    ensures ParseDuration(Some(Write(UNITS, parts))) == Wrap64(Denoted(UNITS, Readable(parts)))
    ensures InRange(parts) ==> ParseDuration(Some(Write(UNITS, parts))) == Wrap64(Denoted(UNITS, parts))
    ensures Denoted(UNITS, parts) <= MAX_INT64 ==>
      ParseDuration(Some(Write(UNITS, parts))) == Denoted(UNITS, parts)
  {
    ParseWithInverts(UNITS, parts);
  }

  /** For instance, a lone number of seconds out of range is read as no time at all. */
  lemma HugeComponentIsLost(d: string)
    requires AllDigits(d) && ValueOf(d) > MAX_INT64
    ensures ParseDuration(Some(d + "s")) == 0
  {
    var parts := [None, None, None, None, None, None, Some(d)];
    assert d != [];
    assert Write(UNITS, parts) == d + "s" by { LoneSeconds(d); }
    assert parts[6].Some?;
    ParseInverts(parts);
    assert Readable(parts) == [None, None, None, None, None, None, None];
    NothingDenoted(UNITS, Readable(parts));
  }

  lemma NothingDenoted(units: string, parts: seq<Option<string>>)
    requires WellFormed(units, parts) && forall i | 0 <= i < |parts| :: parts[i].None?
    ensures Denoted(units, parts) == 0
  {
    if units != [] { NothingDenoted(units[1..], parts[1..]); }
  }

  lemma LoneSeconds(d: string)
    ensures Write("YMDThms", [None, None, None, None, None, None, Some(d)]) == d + "s"
  {
    var parts: seq<Option<string>> := [None, None, None, None, None, None, Some(d)];
    WriteSkips("YMDThms", parts, 6);
    assert parts[6..] == [Some(d)] && "YMDThms"[6..] == "s";
    assert [Some(d)][1..] == [] && "s"[1..] == "";
  }

  lemma {:induction false} WriteSkips(units: string, parts: seq<Option<string>>, k: nat)
    requires |parts| == |units| && k <= |units| && forall i | 0 <= i < k :: parts[i].None?
    ensures Write(units, parts) == Write(units[k..], parts[k..])
  {
    if k == 0 {
      assert units[0..] == units && parts[0..] == parts;
    } else {
      WriteSkips(units[1..], parts[1..], k - 1);
      assert units[1..][k - 1..] == units[k..] && parts[1..][k - 1..] == parts[k..];
    }
  }

  lemma {:induction false} NoGroups(units: string, s: string)
    requires AllDigits(s) && forall i | 0 <= i < |units| :: !IsDigit(units[i])
    ensures forall i | 0 <= i < |units| :: Match(units, s)[i].None?
  {
    if units != [] {
      NoGroups(units[1..], s);
      assert Take(units[0], s).None?;
    }
  }

  lemma BareWith(units: string, s: string)
    requires AllDigits(s) && s != [] && forall i | 0 <= i < |units| :: !IsDigit(units[i])
    ensures ParseWith(units, s) == Wrap64((if ValueOf(s) <= MAX_INT64 then ValueOf(s) else MAX_INT64) * SECOND)
  {
    NoGroups(units, s);
    DigitsParse(s);
  }

  /** A bare number counts seconds, saturating at 2^63 - 1 of them before it is scaled. */
  lemma BareNumber(s: string)
    requires AllDigits(s) && s != []
    ensures ParseDuration(Some(s)) == Wrap64((if ValueOf(s) <= MAX_INT64 then ValueOf(s) else MAX_INT64) * SECOND)
    ensures ValueOf(s) * SECOND <= MAX_INT64 ==> ParseDuration(Some(s)) == ValueOf(s) * SECOND
  {
    BareWith(UNITS, s);
    if ValueOf(s) * SECOND <= MAX_INT64 { WrapExact(ValueOf(s) * SECOND); }
  }

  lemma WritePart(u: char, us: string, d: string, ps: seq<Option<string>>)
    requires |ps| == |us|
    ensures Write([u] + us, [Some(d)] + ps) == d + [u] + Write(us, ps)
  {
    assert ([u] + us)[1..] == us && ([Some(d)] + ps)[1..] == ps;
  }

  lemma DenotedPart(u: char, us: string, d: string, ps: seq<Option<string>>)
    requires WellFormed([u] + us, [Some(d)] + ps) && AllDigits(d)
    ensures WellFormed(us, ps) && Denoted([u] + us, [Some(d)] + ps) == ValueOf(d) * Weight(u) + Denoted(us, ps)
  {
    assert ([u] + us)[1..] == us && ([Some(d)] + ps)[1..] == ps;
  }

  lemma TimeText(us: string, h: string, m: string, s: string)
    requires us == ['h', 'm', 's']
    ensures Write(us, [Some(h), Some(m), Some(s)]) == h + "h" + (m + "m" + (s + "s"))
  {
    assert us == ['h'] + ['m', 's'] && [Some(h), Some(m), Some(s)] == [Some(h)] + [Some(m), Some(s)];
    WritePart('h', ['m', 's'], h, [Some(m), Some(s)]);
    assert ['m', 's'] == ['m'] + ['s'] && [Some(m), Some(s)] == [Some(m)] + [Some(s)];
    WritePart('m', ['s'], m, [Some(s)]);
    assert ['s'] == ['s'] + [] && [Some(s)] == [Some(s)] + [];
    WritePart('s', [], s, []);
  }

  lemma TimeValue(us: string, h: string, m: string, s: string)
    requires us == ['h', 'm', 's'] && WellFormed(us, [Some(h), Some(m), Some(s)])
    requires AllDigits(h) && AllDigits(m) && AllDigits(s)
    ensures Denoted(us, [Some(h), Some(m), Some(s)]) ==
      ValueOf(h) * 3_600_000_000_000 + ValueOf(m) * 60_000_000_000 + ValueOf(s) * 1_000_000_000
  {
    assert us == ['h'] + ['m', 's'] && [Some(h), Some(m), Some(s)] == [Some(h)] + [Some(m), Some(s)];
    DenotedPart('h', ['m', 's'], h, [Some(m), Some(s)]);
    assert ['m', 's'] == ['m'] + ['s'] && [Some(m), Some(s)] == [Some(m)] + [Some(s)];
    DenotedPart('m', ['s'], m, [Some(s)]);
    assert ['s'] == ['s'] + [] && [Some(s)] == [Some(s)] + [];
    DenotedPart('s', [], s, []);
  }

  lemma TimeWith(units: string, parts: seq<Option<string>>, h: string, m: string, s: string)
    requires |units| == 7 && units[4..] == ['h', 'm', 's'] && WellFormed(units, parts)
    requires parts == [None, None, None, None, Some(h), Some(m), Some(s)]
    requires AllDigits(h) && AllDigits(m) && AllDigits(s)
    ensures Write(units, parts) == h + "h" + (m + "m" + (s + "s"))
    ensures Denoted(units, parts) ==
      ValueOf(h) * 3_600_000_000_000 + ValueOf(m) * 60_000_000_000 + ValueOf(s) * 1_000_000_000
  {
    assert parts[4..] == [Some(h), Some(m), Some(s)];
    WriteSkips(units, parts, 4);
    TimeText(units[4..], h, m, s);
    DenotedSkips(units, parts, 4);
    TimeValue(units[4..], h, m, s);
  }

  /** The time part, in full: any hours, minutes and seconds. */
  lemma TimeOfDay(h: string, m: string, s: string)
    requires AllDigits(h) && AllDigits(m) && AllDigits(s) && h != "" && m != "" && s != ""
    requires ValueOf(h) * 3_600_000_000_000 + ValueOf(m) * 60_000_000_000 + ValueOf(s) * 1_000_000_000 <= MAX_INT64
    ensures ParseDuration(Some(h + "h" + (m + "m" + (s + "s")))) ==
      ValueOf(h) * 3_600_000_000_000 + ValueOf(m) * 60_000_000_000 + ValueOf(s) * 1_000_000_000
  {
    var parts := [None, None, None, None, Some(h), Some(m), Some(s)];
    assert parts[4].Some?;
    TimeWith(UNITS, parts, h, m, s);
    ParseInverts(parts);
  }

  lemma {:induction false} DenotedSkips(units: string, parts: seq<Option<string>>, k: nat)
    requires WellFormed(units, parts) && k <= |units| && forall i | 0 <= i < k :: parts[i].None?
    ensures WellFormed(units[k..], parts[k..]) && Denoted(units, parts) == Denoted(units[k..], parts[k..])
  {
    if k == 0 {
      assert units[0..] == units && parts[0..] == parts;
    } else {
      DenotedSkips(units[1..], parts[1..], k - 1);
      assert units[1..][k - 1..] == units[k..] && parts[1..][k - 1..] == parts[k..];
    }
  }

  /** No text, and the empty text, are no time. */
  lemma NothingIsZero()
    ensures ParseDuration(None) == 0 && ParseDuration(Some("")) == 0
  {
    EmptyWith(UNITS);
  }

  lemma EmptyWith(units: string)
    requires forall i | 0 <= i < |units| :: !IsDigit(units[i])
    ensures ParseWith(units, "") == 0
  {
    NoGroups(units, "");
  }
}
