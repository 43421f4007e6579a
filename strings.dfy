/** The JavaScript string built-ins the bot relies on, for the values it gives
    them: the decimal text of an integer (`'' + n`, `String(n)`),
    `String.prototype.trim` and `String.prototype.split` on one character. */
module Strings {

  predicate IsDigit(c: char) {
    '0' <= c <= '9'
  }

  predicate AllDigits(s: string) {
    forall i :: 0 <= i < |s| ==> IsDigit(s[i])
  }

  function DigitChar(d: nat): (c: char)
    requires d < 10
    ensures IsDigit(c) && c as int - '0' as int == d
  {
    ('0' as int + d) as char
  }

  function DigitValue(c: char): (d: nat)
    requires IsDigit(c)
    ensures d < 10
  {
    c as int - '0' as int
  }

  /** The decimal digits of `n`, most significant first, with no leading zero. */
  function NatToString(n: nat): (s: string)
    ensures |s| >= 1 && AllDigits(s)
    ensures s[0] == '0' ==> n == 0 && s == "0"
    decreases n
  {
    if n < 10 then [DigitChar(n)] else NatToString(n / 10) + [DigitChar(n % 10)]
  }

  /** The number a string of decimal digits denotes. */
  function DigitsValue(s: string): nat
    requires AllDigits(s)
  {
    if s == [] then 0 else DigitsValue(s[..|s| - 1]) * 10 + DigitValue(s[|s| - 1])
  }

  /** Reading the digits back gives the number that was written. */
  lemma {:induction false} NatToStringValue(n: nat)
    ensures DigitsValue(NatToString(n)) == n
    decreases n
  {
    if n >= 10 {
      NatToStringValue(n / 10);
      var s := NatToString(n);
      assert s[..|s| - 1] == NatToString(n / 10);
    }
  }

  /** JavaScript's text of an integer-valued number: a minus sign for a
      negative value, then the digits of its magnitude. */
  function IntToString(i: int): (s: string)
    ensures |s| >= 1
    ensures s[0] == '-' <==> i < 0
    ensures i < 0 ==> s[1..] == NatToString(-i)
    ensures i >= 0 ==> s == NatToString(i)
  {
    if i < 0 then "-" + NatToString(-i) else NatToString(i)
  }

  /** The characters `String.prototype.trim` removes: ECMAScript's WhiteSpace
      and LineTerminator code points. */
  predicate IsWhitespace(c: char) {
    || ('\t' <= c <= '\r')
    || c == ' '
    || c == '\U{A0}'
    || c == '\U{1680}'
    || ('\U{2000}' <= c <= '\U{200A}')
    || c == '\U{2028}'
    || c == '\U{2029}'
    || c == '\U{202F}'
    || c == '\U{205F}'
    || c == '\U{3000}'
    || c == '\U{FEFF}'
  }

  predicate AllWhitespace(s: string) {
    forall i :: 0 <= i < |s| ==> IsWhitespace(s[i])
  }

  function TrimStart(s: string): (r: string)
    ensures |r| <= |s|
    ensures r == [] || !IsWhitespace(r[0])
  {
    if s != [] && IsWhitespace(s[0]) then TrimStart(s[1..]) else s
  }

  function TrimEnd(s: string): (r: string)
    ensures r <= s
    ensures r == [] || !IsWhitespace(r[|r| - 1])
  {
    if s != [] && IsWhitespace(s[|s| - 1]) then TrimEnd(s[..|s| - 1]) else s
  }

  /** `s.trim()`: `s` without its leading and trailing white space. */
  function Trim(s: string): (r: string)
    ensures r == [] || (!IsWhitespace(r[0]) && !IsWhitespace(r[|r| - 1]))
  {
    TrimEnd(TrimStart(s))
  }

  /** Trimming only removes white space: `s` is the trimmed text with white
      space before and after it. */
  lemma TrimOnlyRemovesWhitespace(s: string) returns (before: string, after: string)
    ensures AllWhitespace(before) && AllWhitespace(after)
    ensures s == before + Trim(s) + after
  {
    var t := TrimStart(s);
    before := TrimStartRemainder(s);
    after := TrimEndRemainder(t);
    var m := TrimEnd(t);
    assert s == before + (m + after);
    assert before + (m + after) == before + m + after;
  }

  /** What `TrimStart` removes is white space in front of what it keeps. */
  lemma {:induction false} TrimStartRemainder(s: string) returns (before: string)
    ensures AllWhitespace(before) && s == before + TrimStart(s)
  {
    if s != [] && IsWhitespace(s[0]) {
      var rest := TrimStartRemainder(s[1..]);
      before := [s[0]] + rest;
      assert s == [s[0]] + (rest + TrimStart(s[1..]));
      assert AllWhitespace(before) by {
        forall i | 0 <= i < |before| ensures IsWhitespace(before[i]) {
          if i > 0 {
            assert before[i] == rest[i - 1];
          }
        }
      }
    } else {
      before := [];
      assert s == [] + s;
    }
  }

  /** What `TrimEnd` removes is white space after what it keeps. */
  lemma {:induction false} TrimEndRemainder(t: string) returns (after: string)
    ensures AllWhitespace(after) && t == TrimEnd(t) + after
  {
    if t != [] && IsWhitespace(t[|t| - 1]) {
      var front := t[..|t| - 1];
      var rest := TrimEndRemainder(front);
      after := rest + [t[|t| - 1]];
      assert t == (TrimEnd(front) + rest) + [t[|t| - 1]];
      assert AllWhitespace(after) by {
        forall i | 0 <= i < |after| ensures IsWhitespace(after[i]) {
          if i < |rest| {
            assert after[i] == rest[i];
          }
        }
      }
    } else {
      after := [];
      assert t == t + [];
    }
  }

  /** Trimming white space followed by a text that starts and ends with
      something else gives that text. */
  lemma {:induction false} TrimAfterWhitespace(ws: string, t: string)
    requires AllWhitespace(ws)
    requires t != [] && !IsWhitespace(t[0]) && !IsWhitespace(t[|t| - 1])
    ensures Trim(ws + t) == t
  {
    if ws != [] {
      assert (ws + t)[1..] == ws[1..] + t;
      TrimAfterWhitespace(ws[1..], t);
    } else {
      assert ws + t == t;
    }
  }

  /** `s.split(sep)` for a one-character separator: the pieces between
      occurrences of `sep`, including empty ones. */
  function Split(s: string, sep: char): (parts: seq<string>)
    ensures |parts| >= 1
    ensures forall k :: 0 <= k < |parts| ==> sep !in parts[k]
  {
    if s == [] then [""]
    else
      var rest := Split(s[1..], sep);
      if s[0] == sep then [""] + rest else [[s[0]] + rest[0]] + rest[1..]
  }

  /** `parts.join(sep)`. */
  function Join(parts: seq<string>, sep: char): string
    requires |parts| >= 1
  {
    if |parts| == 1 then parts[0] else parts[0] + [sep] + Join(parts[1..], sep)
  }

  /** Joining the pieces of a split with the separator gives back the string. */
  lemma {:induction false} JoinSplit(s: string, sep: char)
    ensures Join(Split(s, sep), sep) == s
  {
    if s != [] {
      var rest := Split(s[1..], sep);
      JoinSplit(s[1..], sep);
      if s[0] != sep {
        var parts := Split(s, sep);
        assert parts[1..] == rest[1..];
        if |rest| == 1 {
          assert Join(parts, sep) == [s[0]] + rest[0];
        } else {
          assert Join(parts, sep) == [s[0]] + rest[0] + [sep] + Join(rest[1..], sep);
        }
      }
    }
  }

  /** Splitting a string that starts with a separator-free piece `p`. */
  lemma {:induction false} SplitAfterPiece(p: string, t: string, sep: char)
    requires sep !in p
    ensures Split(p + t, sep) == [p + Split(t, sep)[0]] + Split(t, sep)[1..]
  {
    if p != [] {
      var q, tail := p + t, Split(t, sep);
      SplitAfterPiece(p[1..], t, sep);
      assert q[0] == p[0] && q[1..] == p[1..] + t;
      var rest := Split(q[1..], sep);
      assert rest == [p[1..] + tail[0]] + tail[1..];
      assert Split(q, sep) == [[p[0]] + rest[0]] + rest[1..];
      assert [p[0]] + (p[1..] + tail[0]) == p + tail[0];
    } else {
      var parts := Split(t, sep);
      assert p + t == t;
      assert p + parts[0] == parts[0];
      assert parts == [parts[0]] + parts[1..];
    }
  }

  /** Splitting a join of separator-free pieces gives back the pieces. */
  lemma {:induction false} SplitJoin(parts: seq<string>, sep: char)
    requires |parts| >= 1
    requires forall k :: 0 <= k < |parts| ==> sep !in parts[k]
    ensures Split(Join(parts, sep), sep) == parts
  {
    if |parts| == 1 {
      SplitAfterPiece(parts[0], [], sep);
      assert parts[0] + [] == parts[0];
    } else {
      var rest := Join(parts[1..], sep);
      var t := [sep] + rest;
      SplitAfterPiece(parts[0], t, sep);
      SplitJoin(parts[1..], sep);
      assert Join(parts, sep) == parts[0] + t;
      assert t[1..] == rest;
      assert Split(t, sep) == [""] + parts[1..];
      assert parts[0] + "" == parts[0];
      assert [parts[0]] + parts[1..] == parts;
    }
  }
}
