/** The duration formatter of utils/utils.py: a number of seconds as an
    abbreviated "1h1m1s" string. */
module Utils {
  import opened Common
  import opened JsonDoc

  function DigitChar(d: nat): (c: char)
    requires d < 10
    ensures '0' <= c <= '9'
  {
    ('0' as int + d) as char
  }

  predicate IsDigit(c: char) { '0' <= c <= '9' }

  /** Python's `str(n)` for a non-negative integer: decimal, no leading zeros. */
  function NatToString(n: nat): (s: string)
    ensures s != []
    ensures forall i :: 0 <= i < |s| ==> IsDigit(s[i])
    ensures n > 0 ==> s[0] != '0'
  {
    if n < 10 then [DigitChar(n)] else NatToString(n / 10) + [DigitChar(n % 10)]
  }

  /** `int(s)` for a string of decimal digits. */
  function ParseNat(s: string): nat
    requires forall i :: 0 <= i < |s| ==> IsDigit(s[i])
  {
    if s == [] then 0
    else
      var last := s[|s| - 1];
      assert IsDigit(last);
      10 * ParseNat(s[..|s| - 1]) + (last as int - '0' as int)
  }

  lemma {:induction false} ParseNatToString(n: nat)
    ensures ParseNat(NatToString(n)) == n
  {
    if n >= 10 {
      var s := NatToString(n);
      assert s[..|s| - 1] == NatToString(n / 10);
      ParseNatToString(n / 10);
    }
  }

  /** The split into whole hours, the minutes left over and the seconds
      left over. */
  function Decompose(seconds: nat): (r: (nat, nat, nat))
    ensures r.0 * 3600 + r.1 * 60 + r.2 == seconds
    ensures r.1 < 60 && r.2 < 60
  {
    (seconds / 3600, (seconds % 3600) / 60, (seconds % 3600) % 60)
  }

  /** One group of the output: a number and its unit letter, followed by
      the rest of the text. */
  function Group(n: nat, unit: char, rest: string): string {
    NatToString(n) + [unit] + rest
  }

  /** `format_playtime(seconds)` for an integer argument. */
  function FormatPlaytime(seconds: int): string {
    if seconds < 0 then "0s"
    else
      var (h, m, s) := Decompose(seconds);
      if h > 0 then Group(h, 'h', Group(m, 'm', SecondsTail(s)))
      else if m > 0 then Group(m, 'm', SecondsTail(s))
      else Group(s, 's', "")
  }

  // ---------------------------------------------------------------------
  // A reader for the strings FormatPlaytime writes: the partner that shows
  // the formatter loses no information for non-negative input.
  // ---------------------------------------------------------------------

  function UnitSeconds(u: char): Option<nat> {
    if u == 'h' then Some(3600) else if u == 'm' then Some(60) else if u == 's' then Some(1) else None
  }

  /** The length of the run of digits at the start of `s`. */
  function DigitRun(s: string): (k: nat)
    ensures k <= |s|
    ensures k < |s| ==> !IsDigit(s[k])
  {
    if s == [] || !IsDigit(s[0]) then 0 else 1 + DigitRun(s[1..])
  }

  /** The run is made of digits only. */
  lemma {:induction false} DigitRunDigits(s: string)
    ensures forall i :: 0 <= i < DigitRun(s) ==> IsDigit(s[i])
  {
    if s != [] && IsDigit(s[0]) {
      DigitRunDigits(s[1..]);
      forall i | 0 <= i < DigitRun(s) ensures IsDigit(s[i]) {
        if i > 0 {
          assert s[i] == s[1..][i - 1];
        }
      }
    }
  }

  /** Reads a sequence of groups "<digits><unit>" and adds up their seconds. */
  function ReadDuration(s: string): Option<int>
    decreases |s|
  {
    if s == [] then Some(0)
    else
      var k := DigitRun(s);
      DigitRunDigits(s);
      if k == 0 || k == |s| || UnitSeconds(s[k]).None? then None
      else match ReadDuration(s[k + 1..])
        case None => None
        case Some(rest) => Some(ParseNat(s[..k]) * UnitSeconds(s[k]).value + rest)
  }

  lemma {:induction false} DigitRunOfNumber(d: string, rest: string)
    requires forall i :: 0 <= i < |d| ==> IsDigit(d[i])
    requires rest != [] && !IsDigit(rest[0])
    ensures DigitRun(d + rest) == |d|
    decreases |d|
  {
    if d != [] {
      assert (d + rest)[1..] == d[1..] + rest;
      DigitRunOfNumber(d[1..], rest);
    }
  }

  /** Reading one group written by FormatPlaytime. */
  lemma ReadGroup(n: nat, u: char, w: nat, rest: string, r: int)
    requires UnitSeconds(u) == Some(w)
    requires ReadDuration(rest) == Some(r)
    ensures ReadDuration(Group(n, u, rest)) == Some(n * w + r)
  {
    var d := NatToString(n);
    var s := Group(n, u, rest);
    assert s == d + ([u] + rest);
    DigitRunOfNumber(d, [u] + rest);
    var k := DigitRun(s);
    assert k == |d|;
    assert s[..k] == d;
    assert s[k] == u;
    assert s[k + 1..] == rest;
    ParseNatToString(n);
    assert ParseNat(s[..k]) == n;
  }

  /** The seconds part: left out when zero. */
  function SecondsTail(s: nat): string {
    if s == 0 then "" else Group(s, 's', "")
  }

  lemma ReadTail(s: nat)
    ensures ReadDuration(SecondsTail(s)) == Some(s)
  {
    if s != 0 {
      ReadGroup(s, 's', 1, "", 0);
    }
  }

  /** Round trip: every non-negative duration is read back from its text. */
  lemma ReadFormatted(seconds: nat)
    ensures ReadDuration(FormatPlaytime(seconds)) == Some(seconds)
  {
    if seconds >= 3600 {
      ReadFormattedHours(seconds);
    } else if seconds >= 60 {
      ReadFormattedMinutes(seconds);
    } else {
      ReadFormattedSeconds(seconds);
    }
  }

  lemma ReadFormattedHours(seconds: nat)
    requires seconds >= 3600
    ensures ReadDuration(FormatPlaytime(seconds)) == Some(seconds)
  {
    var (h, m, s) := Decompose(seconds);
    var tail := Group(m, 'm', SecondsTail(s));
    ReadTail(s);
    ReadGroup(m, 'm', 60, SecondsTail(s), s);
    ReadGroup(h, 'h', 3600, tail, m * 60 + s);
    assert FormatPlaytime(seconds) == Group(h, 'h', tail);
  }

  lemma ReadFormattedMinutes(seconds: nat)
    requires 60 <= seconds < 3600
    ensures ReadDuration(FormatPlaytime(seconds)) == Some(seconds)
  {
    var r := Decompose(seconds);
    assert FormatPlaytime(seconds) == Group(r.1, 'm', SecondsTail(r.2));
    ReadTail(r.2);
    ReadGroup(r.1, 'm', 60, SecondsTail(r.2), r.2);
  }

  lemma ReadFormattedSeconds(seconds: nat)
    requires seconds < 60
    ensures ReadDuration(FormatPlaytime(seconds)) == Some(seconds)
  {
    assert FormatPlaytime(seconds) == Group(seconds, 's', "");
    ReadGroup(seconds, 's', 1, "", 0);
  }

  /** The formatter is injective on non-negative input: two different
      durations never share a text. */
  lemma FormatInjective(a: nat, b: nat)
    requires FormatPlaytime(a) == FormatPlaytime(b)
    ensures a == b
  {
    ReadFormatted(a);
    ReadFormatted(b);
  }

  /** Negative input is reported as zero seconds. */
  lemma FormatNegative(seconds: int)
    requires seconds < 0
    ensures FormatPlaytime(seconds) == FormatPlaytime(0) == "0s"
  {
  }

  /** The examples of the formatter's documentation, and zero. */
  lemma FormatExamples()
    ensures FormatPlaytime(3661) == "1h1m1s"
    ensures FormatPlaytime(120) == "2m"
    ensures FormatPlaytime(45) == "45s"
  {
    assert NatToString(45) == NatToString(4) + [DigitChar(5)];
  }

  /** Zero parts: a whole number of hours still shows its minutes, and
      zero and negative input read as zero seconds. */
  lemma FormatEdgeExamples()
    ensures FormatPlaytime(7200) == "2h0m"
    ensures FormatPlaytime(0) == "0s"
    ensures FormatPlaytime(-5) == "0s"
  {
  }

  /** `format_playtime` on a value read from the data file: anything that
      is not a Python `int` formats as "0s", and since `bool` is an `int`
      in Python, `true` formats as one second. */
  function FormatValue(j: Json): (r: string)
    ensures j.JInt? ==> r == FormatPlaytime(j.n)
    ensures j.JBool? ==> r == (if j.b then "1s" else "0s")
    ensures !j.JInt? && !j.JBool? ==> r == "0s"
  {
    match NumericValue(j)
    case Some(n) => FormatPlaytime(n)
    case None => "0s"
  }
}
