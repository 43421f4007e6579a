/** `format` and `fmt` (src/lib/utils/timeFormatter.ts): a duration in
    milliseconds as a short (`"3h"`) or long (`"3 hours"`) text, in the
    largest unit it reaches, rounded half up. The duration is an integer
    number of milliseconds, so every quotient is an exact rational. */
module TimeFormatter {
  import opened Wrappers
  import opened Strings

  const Second: nat := 1000
  const Minute: nat := Second * 60
  const Hour: nat := Minute * 60
  const Day: nat := Hour * 24
  /** 365.25 days. */
  const Year: nat := 31557600000

  datatype Unit = Seconds | Minutes | Hours | Days | Years

  function UnitMs(u: Unit): (ms: nat)
    ensures ms >= Second
  {
    match u
    case Seconds => Second
    case Minutes => Minute
    case Hours => Hour
    case Days => Day
    case Years => Year
  }

  function UnitName(u: Unit): (name: string)
    ensures |name| >= 3 && ' ' !in name
  {
    match u
    case Seconds => "second"
    case Minutes => "minute"
    case Hours => "hour"
    case Days => "day"
    case Years => "year"
  }

  /** Units in increasing order. */
  function Rank(u: Unit): nat {
    match u
    case Seconds => 0
    case Minutes => 1
    case Hours => 2
    case Days => 3
    case Years => 4
  }

  /** The unit `format` picks for a magnitude of at least a second: the
      largest one that fits in it. */
  function UnitFor(abs: nat): (u: Unit)
    requires abs >= Second
    ensures UnitMs(u) <= abs
    ensures forall w: Unit :: Rank(w) > Rank(u) ==> abs < UnitMs(w)
  {
    if abs < Minute then Seconds
    else if abs < Hour then Minutes
    else if abs < Day then Hours
    else if abs < Year then Days
    else Years
  }

  /** The number `fmt` shows for `abs / unit`: the quotient itself when it
      is a whole number, otherwise the quotient plus one half, truncated. */
  function DisplayNumber(abs: nat, unit: nat): nat
    requires unit > 0
  {
    if abs % unit == 0 then abs / unit else (2 * abs + unit) / (2 * unit)
  }

  lemma MultipleBelowDivisor(d: int, b: int)
    requires b > 0 && d * b < b && (d + 1) * b > 0
    ensures d == 0
  {
    if d >= 1 {
      NonnegativeProduct(d - 1, b);
    } else if d <= -1 {
      NonnegativeProduct(-d - 1, b);
    }
  }

  lemma NonnegativeProduct(x: int, y: int)
    requires x >= 0 && y >= 0
    ensures x * y >= 0
  {
  }

  lemma DivideBetween(a: int, b: int, c: int)
    requires b > 0 && c * b <= a < (c + 1) * b
    ensures a / b == c
  {
    var q, r := a / b, a % b;
    var d := c - q;
    assert a == q * b + r && 0 <= r < b;
    assert d * b == c * b - q * b;
    assert (d + 1) * b == (c + 1) * b - q * b;
    MultipleBelowDivisor(d, b);
  }

  /** The shown number is the quotient rounded half up: the whole part of
      `abs / unit`, plus one when the remainder is at least half a unit. */
  lemma DisplayRoundsHalfUp(abs: nat, unit: nat)
    requires unit > 0
    ensures DisplayNumber(abs, unit)
         == abs / unit + (if 2 * (abs % unit) >= unit then 1 else 0)
    ensures 2 * unit * DisplayNumber(abs, unit) <= 2 * abs + unit < 2 * unit * (DisplayNumber(abs, unit) + 1)
  {
    var q, r := abs / unit, abs % unit;
    var up := if 2 * r >= unit then 1 else 0;
    assert abs == q * unit + r;
    assert 2 * abs + unit == 2 * unit * q + (2 * r + unit);
    assert (q + up) * (2 * unit) <= 2 * abs + unit < (q + up + 1) * (2 * unit);
    if r != 0 {
      DivideBetween(2 * abs + unit, 2 * unit, q + up);
    }
  }

  /** `fmt`: the sign prefix, the shown number, then either a space, the
      unit's name and an "s" unless the number is 1 (long form), or the
      name's first letter (short form). */
  function Fmt(abs: nat, u: Unit, pfx: string, long: bool): string {
    var num := DisplayNumber(abs, UnitMs(u));
    pfx + NatToString(num)
      + (if long then " " + UnitName(u) + (if num != 1 then "s" else "") else [UnitName(u)[0]])
  }

  function Abs(num: int): nat {
    if num < 0 then -num else num
  }

  /** `format(num, long)`. Below a second the number is written as it is
      (with its own sign) followed by "ms" or " ms". */
  function Format(num: int, long: bool): string {
    var pfx := if num < 0 then "-" else "";
    var abs := Abs(num);
    if abs < Second then IntToString(num) + (if long then " ms" else "ms")
    else Fmt(abs, UnitFor(abs), pfx, long)
  }

  /** What a formatted duration says: its sign, its number, and its unit
      (none for milliseconds). */
  datatype Reading = Reading(negative: bool, amount: nat, unit: Option<Unit>)

  /** What `format(num)` should say: below a second, the exact number of
      milliseconds; otherwise the number of the largest unit that fits,
      rounded half up. */
  function Meaning(num: int): Reading {
    var abs := Abs(num);
    if abs < Second then Reading(num < 0, abs, None)
    else Reading(num < 0, DisplayNumber(abs, UnitMs(UnitFor(abs))), Some(UnitFor(abs)))
  }

  // ---------------------------------------------------------------------
  // Reading a formatted duration back

  /** An optional minus sign followed by at least one digit. */
  function ParseSigned(t: string): Option<(bool, nat)> {
    if |t| >= 2 && t[0] == '-' && AllDigits(t[1..]) then Some((true, DigitsValue(t[1..])))
    else if |t| >= 1 && AllDigits(t) then Some((false, DigitsValue(t)))
    else None
  }

  function UnitOfLetter(c: char): Option<Unit> {
    if c == 's' then Some(Seconds)
    else if c == 'm' then Some(Minutes)
    else if c == 'h' then Some(Hours)
    else if c == 'd' then Some(Days)
    else if c == 'y' then Some(Years)
    else None
  }

  function UnitOfName(w: string): Option<Unit> {
    if w == "second" then Some(Seconds)
    else if w == "minute" then Some(Minutes)
    else if w == "hour" then Some(Hours)
    else if w == "day" then Some(Days)
    else if w == "year" then Some(Years)
    else None
  }

  /** Reads a short-form duration: "<n>ms" or "<n><letter>". */
  function ParseShort(s: string): Option<Reading> {
    if |s| >= 2 && s[|s| - 2..] == "ms" then
      match ParseSigned(s[..|s| - 2])
      case None => None
      case Some(p) => Some(Reading(p.0, p.1, None))
    else if |s| >= 1 && UnitOfLetter(s[|s| - 1]).Some? then
      match ParseSigned(s[..|s| - 1])
      case None => None
      case Some(p) => Some(Reading(p.0, p.1, UnitOfLetter(s[|s| - 1])))
    else None
  }

  /** Reads a long-form duration: "<n> ms" or "<n> <name>", the name
      plural exactly when the number is not 1. */
  function ParseLong(s: string): Option<Reading> {
    var parts := Split(s, ' ');
    if |parts| != 2 then None
    else
      match ParseSigned(parts[0])
      case None => None
      case Some(p) => ReadWord(p.0, p.1, parts[1])
  }

  /** The word after the number in the long form. */
  function ReadWord(negative: bool, amount: nat, w: string): Option<Reading> {
    if w == "ms" then Some(Reading(negative, amount, None))
    else
      var name := if amount != 1 && |w| >= 1 && w[|w| - 1] == 's' then w[..|w| - 1] else w;
      match UnitOfName(name)
      case None => None
      case Some(u) =>
        if w == name + (if amount != 1 then "s" else "") then Some(Reading(negative, amount, Some(u))) else None
  }

  function Parse(s: string, long: bool): Option<Reading> {
    if long then ParseLong(s) else ParseShort(s)
  }

  lemma ParseSignedNumber(negative: bool, n: nat)
    ensures ParseSigned((if negative then "-" else "") + NatToString(n)) == Some((negative, n))
  {
    var digits := NatToString(n);
    var t := (if negative then "-" else "") + digits;
    NatToStringValue(n);
    if negative {
      assert t[0] == '-' && t[1..] == digits;
    } else {
      assert t == digits;
      assert IsDigit(t[0]);
    }
  }

  lemma SignedText(num: int)
    ensures IntToString(num) == (if num < 0 then "-" else "") + NatToString(Abs(num))
  {
  }

  /** Each unit's name, and its first letter, read back to the unit. */
  lemma UnitNameRead(u: Unit)
    ensures UnitOfName(UnitName(u)) == Some(u)
    ensures UnitOfLetter(UnitName(u)[0]) == Some(u)
  {
  }

  lemma ShortMsRoundTrip(num: int)
    requires Abs(num) < Second
    ensures ParseShort(Format(num, false)) == Some(Meaning(num))
  {
    var abs := Abs(num);
    SignedText(num);
    var s := Format(num, false);
    var t := (if num < 0 then "-" else "") + NatToString(abs);
    assert s == t + "ms";
    assert s[|s| - 2..] == "ms" && s[..|s| - 2] == t;
    ParseSignedNumber(num < 0, abs);
  }

  lemma ShortUnitRoundTrip(num: int)
    requires Abs(num) >= Second
    ensures ParseShort(Format(num, false)) == Some(Meaning(num))
  {
    var abs := Abs(num);
    var u := UnitFor(abs);
    var n := DisplayNumber(abs, UnitMs(u));
    var digits := NatToString(n);
    var t := (if num < 0 then "-" else "") + digits;
    var s := Format(num, false);
    assert s == t + [UnitName(u)[0]];
    assert s[|s| - 1] == UnitName(u)[0] && s[..|s| - 1] == t;
    assert s[|s| - 2] == digits[|digits| - 1];
    assert IsDigit(s[|s| - 2]);
    assert s[|s| - 2..][0] == s[|s| - 2];
    UnitNameRead(u);
    ParseSignedNumber(num < 0, n);
  }

  lemma ShortRoundTrip(num: int)
    ensures ParseShort(Format(num, false)) == Some(Meaning(num))
  {
    if Abs(num) < Second {
      ShortMsRoundTrip(num);
    } else {
      ShortUnitRoundTrip(num);
    }
  }

  lemma SplitTwo(a: string, b: string)
    requires ' ' !in a && ' ' !in b
    ensures Split(a + " " + b, ' ') == [a, b]
  {
    SplitJoin([a, b], ' ');
    assert Join([a, b], ' ') == a + [' '] + Join([b], ' ');
  }

  lemma DigitsHaveNoSpace(negative: bool, n: nat)
    ensures ' ' !in (if negative then "-" else "") + NatToString(n)
  {
    var t := (if negative then "-" else "") + NatToString(n);
    forall k | 0 <= k < |t| ensures t[k] != ' ' {
      if negative && k == 0 {
      } else {
        var d := NatToString(n);
        assert t[k] == d[k - (|t| - |d|)];
      }
    }
  }

  lemma ReadUnitWord(negative: bool, n: nat, u: Unit)
    ensures ReadWord(negative, n, UnitName(u) + (if n != 1 then "s" else ""))
         == Some(Reading(negative, n, Some(u)))
  {
    var name := UnitName(u);
    var word := name + (if n != 1 then "s" else "");
    UnitNameRead(u);
    assert word != "ms" by {
      assert |word| >= 3;
    }
    if n != 1 {
      assert word[|word| - 1] == 's';
      assert word[..|word| - 1] == name;
    } else {
      assert word == name + "";
    }
  }

  lemma LongUnitRoundTrip(negative: bool, n: nat, u: Unit)
    ensures var word := UnitName(u) + (if n != 1 then "s" else "");
            ParseLong((if negative then "-" else "") + NatToString(n) + " " + word)
              == Some(Reading(negative, n, Some(u)))
  {
    var t := (if negative then "-" else "") + NatToString(n);
    var word := UnitName(u) + (if n != 1 then "s" else "");
    DigitsHaveNoSpace(negative, n);
    assert ' ' !in word;
    SplitTwo(t, word);
    ParseSignedNumber(negative, n);
    ReadUnitWord(negative, n, u);
  }

  lemma LongMsRoundTrip(num: int)
    requires Abs(num) < Second
    ensures ParseLong(Format(num, true)) == Some(Meaning(num))
  {
    var abs := Abs(num);
    SignedText(num);
    var t := (if num < 0 then "-" else "") + NatToString(abs);
    DigitsHaveNoSpace(num < 0, abs);
    SplitTwo(t, "ms");
    assert Format(num, true) == t + " " + "ms";
    ParseSignedNumber(num < 0, abs);
  }

  lemma LongUnitText(num: int)
    requires Abs(num) >= Second
    ensures var n := DisplayNumber(Abs(num), UnitMs(UnitFor(Abs(num))));
            Format(num, true) == (if num < 0 then "-" else "") + NatToString(n) + " "
                                 + (UnitName(UnitFor(Abs(num))) + (if n != 1 then "s" else ""))
  {
  }

  lemma LongRoundTrip(num: int)
    ensures ParseLong(Format(num, true)) == Some(Meaning(num))
  {
    var abs := Abs(num);
    if abs < Second {
      LongMsRoundTrip(num);
    } else {
      var u := UnitFor(abs);
      var n := DisplayNumber(abs, UnitMs(u));
      LongUnitRoundTrip(num < 0, n, u);
      LongUnitText(num);
    }
  }

  /** The formatted text can be read back, in either form, to the sign, the
      number and the unit it is meant to show. */
  lemma FormatRoundTrip(num: int, long: bool)
    ensures Parse(Format(num, long), long) == Some(Meaning(num))
  {
    if long {
      LongRoundTrip(num);
    } else {
      ShortRoundTrip(num);
    }
  }

  /** A duration of at least a second shows a number of at least one. */
  lemma ShownAtLeastOne(abs: nat)
    requires abs >= Second
    ensures DisplayNumber(abs, UnitMs(UnitFor(abs))) >= 1
  {
    var unit := UnitMs(UnitFor(abs));
    DisplayRoundsHalfUp(abs, unit);
    assert abs / unit >= 1;
  }

  /** Every magnitude a JavaScript number holds exactly (up to 2^53 - 1)
      shows a number below 2^31, so the 32-bit truncations in `fmt`
      (`val | 0` and `~~`) never change it. */
  lemma ShownFitsInt32(abs: nat)
    requires Second <= abs <= 0x1F_FFFF_FFFF_FFFF
    ensures DisplayNumber(abs, UnitMs(UnitFor(abs))) < 0x8000_0000
  {
    var unit := UnitMs(UnitFor(abs));
    DisplayRoundsHalfUp(abs, unit);
    assert abs / unit <= abs / Year || unit < Year;
  }

  /** Rounding half up can reach the next unit's size: 59.5 seconds and
      more is written as 60 seconds, not as a minute. */
  lemma RoundsUpWithinUnit()
    ensures Format(59_999, false) == "60s"
  {
    assert UnitFor(59_999) == Seconds;
    assert DisplayNumber(59_999, Second) == 60;
    assert NatToString(60) == "60";
  }

  /** Half a unit rounds away from zero on both sides; below half a unit
      the number rounds down. */
  lemma RoundsHalfAwayFromZero()
    ensures Format(-1_500, true) == "-2 seconds"
    ensures Format(1_499, true) == "1 second"
  {
    assert DisplayNumber(1_500, Second) == 2;
    assert DisplayNumber(1_499, Second) == 1;
    assert NatToString(2) == "2";
    assert NatToString(1) == "1";
  }

  /** Below a second the number is written exactly, with its sign. */
  lemma MillisecondsExact()
    ensures Format(-999, false) == "-999ms"
  {
    assert NatToString(999) == "999";
  }
}
