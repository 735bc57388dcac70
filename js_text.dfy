/** The JavaScript string built-ins the core relies on, on `seq<char>`:
    `Number.prototype.toString` for integers, `String.prototype.padStart`,
    `String.prototype.slice(0, n)`, `Array.prototype.join` and the global
    `parseInt` called without a radix. Numbers are unbounded integers here:
    the precision of IEEE doubles above 2^53 and the exponent form that
    `toString` switches to from 10^21 on are not modelled. */
module JsText {
  import opened Wrappers

  // ---------------------------------------------------------------- digits

  /** The value of `c` as a digit of a radix up to 36 ('0'-'9', then 'a'-'z'
      or 'A'-'Z'), and 36 for every other character. */
  function DigitValue(c: char): (d: nat)
    ensures d <= 36
    ensures d < 10 <==> '0' <= c <= '9'
  {
    if '0' <= c <= '9' then c as int - '0' as int
    else if 'a' <= c <= 'z' then c as int - 'a' as int + 10
    else if 'A' <= c <= 'Z' then c as int - 'A' as int + 10
    else 36
  }

  predicate IsDigitIn(c: char, radix: nat) {
    DigitValue(c) < radix
  }

  predicate AllDigitsIn(s: string, radix: nat) {
    forall i :: 0 <= i < |s| ==> IsDigitIn(s[i], radix)
  }

  /** The decimal digit character for `d`. */
  function DigitChar(d: nat): (c: char)
    requires d < 10
    ensures '0' <= c <= '9' && DigitValue(c) == d
  {
    ('0' as int + d) as char
  }

  /** The number a string of `radix` digits denotes, most significant first. */
  function RadixValue(s: string, radix: nat): nat
    requires AllDigitsIn(s, radix)
  {
    if s == [] then 0 else RadixValue(s[..|s| - 1], radix) * radix + DigitValue(s[|s| - 1])
  }

  lemma RadixValueSnoc(s: string, c: char, radix: nat)
    requires AllDigitsIn(s, radix) && IsDigitIn(c, radix)
    ensures AllDigitsIn(s + [c], radix)
    ensures RadixValue(s + [c], radix) == RadixValue(s, radix) * radix + DigitValue(c)
  {
    assert (s + [c])[..|s|] == s;
  }

  /** A leading zero does not change the value of a digit string. */
  lemma {:induction false} RadixValueLeadingZero(s: string, radix: nat)
    requires 0 < radix && AllDigitsIn(s, radix)
    ensures AllDigitsIn("0" + s, radix)
    ensures RadixValue("0" + s, radix) == RadixValue(s, radix)
    decreases |s|
  {
    if s != [] {
      var init, last := s[..|s| - 1], s[|s| - 1];
      assert s == init + [last];
      RadixValueLeadingZero(init, radix);
      assert "0" + s == ("0" + init) + [last];
      RadixValueSnoc("0" + init, last, radix);
      RadixValueSnoc(init, last, radix);
    }
  }

  // --------------------------------------------------------------- toString

  /** `n.toString()` for a non-negative integer: its decimal digits, with no
      leading zero except for 0 itself. */
  function NatToString(n: nat): (r: string)
    ensures |r| >= 1 && AllDigitsIn(r, 10)
    ensures RadixValue(r, 10) == n
    ensures r[0] == '0' <==> n == 0
    ensures |r| == 1 <==> n < 10
    ensures |r| == 2 <==> 10 <= n < 100
  {
    if n < 10 then
      [DigitChar(n)]
    else
      var high, low := NatToString(n / 10), DigitChar(n % 10);
      RadixValueSnoc(high, low, 10);
      high + [low]
  }

  /** `n.toString()` for any integer: a minus sign before the digits of a
      negative number. */
  function IntToString(n: int): (r: string)
    ensures |r| >= 1
    ensures n >= 0 ==> r == NatToString(n)
    ensures n < 0 ==> r == "-" + NatToString(-n)
  {
    if n < 0 then "-" + NatToString(-n) else NatToString(n)
  }

  // --------------------------------------------------------- padStart, slice

  /** `s.padStart(width, fill)` with a one-character pad string: `fill`
      repeated in front of `s` up to `width` characters. */
  function PadStart(s: string, width: nat, fill: char): (r: string)
    ensures |r| == if |s| < width then width else |s|
    ensures r[|r| - |s|..] == s
    ensures forall i :: 0 <= i < |r| - |s| ==> r[i] == fill
  {
    if |s| < width then seq(width - |s|, _ => fill) + s else s
  }

  /** `s.slice(0, end)` for a non-negative `end`: the first `end` characters,
      or all of `s` when it is shorter. */
  function SliceTo(s: string, end: nat): (r: string)
    ensures |r| == if end < |s| then end else |s|
    ensures r == s[..|r|]
  {
    if end < |s| then s[..end] else s
  }

  // ------------------------------------------------------------------- join

  /** `lines.join(sep)`. */
  function Join(lines: seq<string>, sep: string): string
  {
    if |lines| == 0 then ""
    else if |lines| == 1 then lines[0]
    else lines[0] + sep + Join(lines[1..], sep)
  }

  /** A join of no lines is empty; otherwise it starts with the first line
      and ends with the last. */
  lemma {:induction false} JoinEnds(lines: seq<string>, sep: string)
    ensures lines == [] ==> Join(lines, sep) == ""
    ensures lines != [] ==> |lines[0]| <= |Join(lines, sep)| && Join(lines, sep)[..|lines[0]|] == lines[0]
    ensures lines != [] ==>
              |lines[|lines| - 1]| <= |Join(lines, sep)| &&
              Join(lines, sep)[|Join(lines, sep)| - |lines[|lines| - 1]|..] == lines[|lines| - 1]
    decreases |lines|
  {
    if |lines| > 1 {
      JoinEnds(lines[1..], sep);
      var rest := Join(lines[1..], sep);
      assert Join(lines, sep) == lines[0] + (sep + rest);
      assert lines[1..][|lines[1..]| - 1] == lines[|lines| - 1];
    }
  }

  /** Joining one more line adds the separator and that line at the end. */
  lemma {:induction false} JoinSnoc(lines: seq<string>, last: string, sep: string)
    requires lines != []
    ensures Join(lines + [last], sep) == Join(lines, sep) + sep + last
    decreases |lines|
  {
    if |lines| > 1 {
      JoinSnoc(lines[1..], last, sep);
      assert (lines + [last])[1..] == lines[1..] + [last];
    } else {
      assert (lines + [last])[1..] == [last];
    }
  }

  // --------------------------------------------------------------- parseInt

  /** ECMAScript's StrWhiteSpaceChar: the white space and line terminators
      that `parseInt` skips before the number. */
  predicate IsWhiteSpace(c: char) {
    c == '\t' || c == '\n' || c == '\U{000B}' || c == '\U{000C}' || c == '\r'
    || c == ' ' || c == '\U{00A0}' || c == '\U{1680}'
    || ('\U{2000}' <= c <= '\U{200A}')
    || c == '\U{2028}' || c == '\U{2029}' || c == '\U{202F}' || c == '\U{205F}'
    || c == '\U{3000}' || c == '\U{FEFF}'
  }

  /** `s` without its leading white space. */
  function TrimStart(s: string): (r: string)
    ensures |r| <= |s| && r == s[|s| - |r|..]
    ensures forall i :: 0 <= i < |s| - |r| ==> IsWhiteSpace(s[i])
    ensures r == [] || !IsWhiteSpace(r[0])
    decreases |s|
  {
    if s != [] && IsWhiteSpace(s[0]) then TrimStart(s[1..]) else s
  }

  /** The longest prefix of `s` made of `radix` digits. */
  function DigitPrefix(s: string, radix: nat): (r: string)
    ensures |r| <= |s| && r == s[..|r|]
    ensures AllDigitsIn(r, radix)
    ensures |r| == |s| || !IsDigitIn(s[|r|], radix)
    decreases |s|
  {
    if s != [] && IsDigitIn(s[0], radix) then [s[0]] + DigitPrefix(s[1..], radix) else []
  }

  /** `parseInt(s)` with no radix argument, None standing for NaN: skip
      leading white space, then read what `ParseTrimmed` reads. */
  function ParseInt(s: string): Option<int>
  {
    ParseTrimmed(TrimStart(s))
  }

  /** parseInt after the white space: an optional sign, then hexadecimal
      digits after a "0x" or "0X" prefix and decimal digits otherwise, of which
      the longest run is kept; NaN when that run is empty. */
  function ParseTrimmed(t: string): Option<int>
  {
    var negative := |t| > 0 && t[0] == '-';
    var u := if |t| > 0 && (t[0] == '-' || t[0] == '+') then t[1..] else t;
    var hex := |u| >= 2 && u[0] == '0' && (u[1] == 'x' || u[1] == 'X');
    var radix := if hex then 16 else 10;
    var digits := DigitPrefix(if hex then u[2..] else u, radix);
    var magnitude: int := if digits == [] then 0 else RadixValue(digits, radix);
    if digits == [] then None
    else if negative then Some(-magnitude)
    else Some(magnitude)
  }

  /** What `ParseTrimmed` makes of the first character: nothing, or neither
      a sign nor a digit, is NaN; only '-' gives a negative number; a
      decimal digit that does not open a "0x" prefix gives a number. */
  lemma ParseTrimmedCases(t: string)
    ensures t == [] ==> ParseTrimmed(t).None?
    ensures t != [] && t[0] != '-' && t[0] != '+' && !IsDigitIn(t[0], 10) ==> ParseTrimmed(t).None?
    ensures ParseTrimmed(t).Some? && ParseTrimmed(t).value < 0 ==> t[0] == '-'
    ensures t != [] && IsDigitIn(t[0], 10) && !(|t| >= 2 && t[0] == '0' && (t[1] == 'x' || t[1] == 'X')) ==>
              ParseTrimmed(t).Some? && ParseTrimmed(t).value >= 0
  {
  }

  /** An answer of white space only is NaN; a number is read only when
      something other than white space is left, and a negative one only
      when that rest starts with '-'. */
  lemma ParseIntCases(s: string)
    ensures (forall i :: 0 <= i < |s| ==> IsWhiteSpace(s[i])) ==> ParseInt(s).None?
    ensures ParseInt(s).Some? ==> TrimStart(s) != [] && (ParseInt(s).value < 0 ==> TrimStart(s)[0] == '-')
  {
    ParseTrimmedCases(TrimStart(s));
  }

  /** A digit string followed by something that is not a digit keeps its digits. */
  lemma {:induction false} DigitPrefixOfDigits(ds: string, rest: string, radix: nat)
    requires AllDigitsIn(ds, radix)
    requires rest == [] || !IsDigitIn(rest[0], radix)
    ensures DigitPrefix(ds + rest, radix) == ds
    decreases |ds|
  {
    if ds != [] {
      assert (ds + rest)[1..] == ds[1..] + rest;
      DigitPrefixOfDigits(ds[1..], rest, radix);
    } else {
      assert ds + rest == rest;
    }
  }

  /** White space in front of the text does not change what parseInt reads. */
  lemma {:induction false} TrimStartSkips(ws: string, s: string)
    requires forall i :: 0 <= i < |ws| ==> IsWhiteSpace(ws[i])
    ensures TrimStart(ws + s) == TrimStart(s)
    decreases |ws|
  {
    if ws != [] {
      assert (ws + s)[1..] == ws[1..] + s;
      TrimStartSkips(ws[1..], s);
    } else {
      assert ws + s == s;
    }
  }

  lemma ParseIntSkipsWhiteSpace(ws: string, s: string)
    requires forall i :: 0 <= i < |ws| ==> IsWhiteSpace(ws[i])
    ensures ParseInt(ws + s) == ParseInt(s)
  {
    TrimStartSkips(ws, s);
  }

  /** A text that starts with a decimal digit is not trimmed. */
  lemma TrimStartAtDigit(s: string)
    requires s != [] && '0' <= s[0] <= '9'
    ensures TrimStart(s) == s
  {
    assert !IsWhiteSpace(s[0]);
  }

  /** After the white space, a run of decimal digits is read in full when
      what follows is not a digit and the run is not a hexadecimal prefix. */
  lemma ParseTrimmedDigits(ds: string, rest: string)
    requires ds != [] && AllDigitsIn(ds, 10)
    requires rest == [] || !IsDigitIn(rest[0], 10)
    requires ds == "0" && rest != [] ==> rest[0] != 'x' && rest[0] != 'X'
    ensures ParseTrimmed(ds + rest) == Some(RadixValue(ds, 10))
  {
    var t := ds + rest;
    assert t[0] == ds[0] && IsDigitIn(ds[0], 10);
    if |t| >= 2 {
      if |ds| >= 2 {
        assert t[1] == ds[1] && IsDigitIn(ds[1], 10);
      } else {
        assert t[1] == rest[0];
        assert ds == [ds[0]];
      }
    }
    DigitPrefixOfDigits(ds, rest, 10);
  }

  /** parseInt reads back the decimal rendering of a natural number, also when
      junk that is not a digit follows it; the one exception is "0" followed
      by 'x' or 'X', which parseInt takes for a hexadecimal prefix. */
  lemma ParseIntOfNatPrefix(n: nat, rest: string)
    requires rest == [] || !IsDigitIn(rest[0], 10)
    requires n == 0 && rest != [] ==> rest[0] != 'x' && rest[0] != 'X'
    ensures ParseInt(NatToString(n) + rest) == Some(n)
  {
    var ds := NatToString(n);
    assert IsDigitIn(ds[0], 10);
    assert (ds + rest)[0] == ds[0];
    TrimStartAtDigit(ds + rest);
    if ds == "0" {
      assert n == 0;
    }
    ParseTrimmedDigits(ds, rest);
  }

  /** parseInt is a left inverse of toString on integers. */
  lemma ParseIntOfIntToString(n: int)
    ensures ParseInt(IntToString(n)) == Some(n)
  {
    if n < 0 {
      var ds := NatToString(-n);
      var s := "-" + ds;
      assert s == IntToString(n);
      assert TrimStart(s) == s;
      assert s[1..] == ds + [];
      assert IsDigitIn(ds[0], 10);
      assert ds == "0" ==> -n == 0;
      ParseTrimmedDigits(ds, []);
    } else {
      ParseIntOfNatPrefix(n, []);
      assert NatToString(n) + [] == NatToString(n);
    }
  }

  /** A sign, a hexadecimal prefix, and answers with no digits at all. */
  lemma ParseTrimmedExamples()
    ensures ParseTrimmed("+3") == Some(3)
    ensures ParseTrimmed("-1") == Some(-1)
    ensures ParseTrimmed("0x1") == Some(1)
    ensures ParseTrimmed("") == None
    ensures ParseTrimmed("abc") == None
    ensures ParseTrimmed("0x") == None
  {
    assert DigitPrefix("3", 10) == "3";
    assert DigitPrefix("1", 10) == "1";
    assert DigitPrefix("1", 16) == "1";
    assert DigitPrefix("abc", 10) == "";
    assert DigitPrefix("", 16) == "";
  }
}
