/**
 * The pieces of Python's string handling that the log protocol relies on:
 * `str.split()` with no separator, `" ".join(...)`, `str(int)` and `int(str)`.
 */
module Text {
  import opened Wrappers

  /** `str.isspace()` for one character: the characters `str.split()` breaks on. */
  predicate IsSpace(c: char) {
    c == ' ' || ('\t' <= c <= '\r') || ('\U{1C}' <= c <= '\U{1F}')
    || c == '\U{85}' || c == '\U{A0}' || c == '\U{1680}' || ('\U{2000}' <= c <= '\U{200A}')
    || c == '\U{2028}' || c == '\U{2029}' || c == '\U{202F}' || c == '\U{205F}' || c == '\U{3000}'
  }

  /** A word as `str.split()` yields it: non-empty, with no whitespace in it. */
  predicate IsToken(w: string) {
    |w| > 0 && forall i :: 0 <= i < |w| ==> !IsSpace(w[i])
  }

  /** The longest prefix of `s` that holds no whitespace. */
  function TakeWord(s: string): (w: string)
    ensures |w| <= |s| && w == s[..|w|]
    ensures forall i :: 0 <= i < |w| ==> !IsSpace(w[i])
    ensures |w| < |s| ==> IsSpace(s[|w|])
    ensures s != "" && !IsSpace(s[0]) ==> |w| > 0
  {
    if s == "" || IsSpace(s[0]) then "" else [s[0]] + TakeWord(s[1..])
  }

  /** `s.split()`: the maximal whitespace-free runs of `s`, in order. */
  function Split(s: string): (ws: seq<string>)
    ensures forall i :: 0 <= i < |ws| ==> IsToken(ws[i])
    decreases |s|
  {
    if s == "" then []
    else if IsSpace(s[0]) then Split(s[1..])
    else
      var w := TakeWord(s);
      [w] + Split(s[|w|..])
  }

  /** `" ".join(ws)`. */
  function Join(ws: seq<string>): string {
    if |ws| == 0 then "" else if |ws| == 1 then ws[0] else ws[0] + " " + Join(ws[1..])
  }

  lemma JoinCons(w: string, ws: seq<string>)
    requires |ws| > 0
    ensures Join([w] + ws) == w + " " + Join(ws)
  {
    assert ([w] + ws)[1..] == ws;
  }

  lemma {:induction false} TakeWordOfToken(w: string, rest: string)
    requires forall i :: 0 <= i < |w| ==> !IsSpace(w[i])
    requires rest == "" || IsSpace(rest[0])
    ensures TakeWord(w + rest) == w
    decreases |w|
  {
    if w == "" {
      assert w + rest == rest;
    } else {
      assert (w + rest)[0] == w[0];
      assert (w + rest)[1..] == w[1..] + rest;
      TakeWordOfToken(w[1..], rest);
    }
  }

  /** Splitting a line joined from words gives back exactly those words. */
  lemma {:induction false} SplitJoin(ws: seq<string>)
    requires forall i :: 0 <= i < |ws| ==> IsToken(ws[i])
    ensures Split(Join(ws)) == ws
    decreases |ws|
  {
    if |ws| == 0 {
    } else if |ws| == 1 {
      TakeWordOfToken(ws[0], "");
      assert ws[0] + "" == ws[0];
      assert ws[0][|ws[0]|..] == "";
    } else {
      var w, rest := ws[0], Join(ws[1..]);
      var s := w + " " + rest;
      assert s == w + (" " + rest);
      TakeWordOfToken(w, " " + rest);
      assert s[|w|..] == " " + rest;
      assert (" " + rest)[1..] == rest;
      SplitJoin(ws[1..]);
      assert ws == [w] + ws[1..];
    }
  }

  /** A single word splits to itself. */
  lemma SplitToken(w: string)
    requires IsToken(w)
    ensures Split(w) == [w]
  {
    assert Join([w]) == w;
    SplitJoin([w]);
  }

  /** A line read back from the log is split, and joining its words again may only
      normalise the whitespace: the words themselves are kept. */
  lemma SplitOfJoinedSplit(s: string)
    ensures Split(Join(Split(s))) == Split(s)
  {
    SplitJoin(Split(s));
  }

  /** Lines of three, four and seven words, as the format strings of the log build
      them, split back into those words. */
  lemma WordsParse2(a: string, b: string)
    requires IsToken(a) && IsToken(b)
    ensures Split(a + " " + b) == [a, b]
  {
    JoinCons(a, [b]);
    assert [a, b] == [a] + [b];
    SplitJoin([a, b]);
  }

  lemma WordsParse3(a: string, b: string, c: string)
    requires IsToken(a) && IsToken(b) && IsToken(c)
    ensures Split(a + " " + b + " " + c) == [a, b, c]
  {
    Join3(a, b, c);
    SplitJoin([a, b, c]);
  }

  lemma WordsParse4(a: string, b: string, c: string, d: string)
    requires IsToken(a) && IsToken(b) && IsToken(c) && IsToken(d)
    ensures Split(a + " " + b + " " + c + " " + d) == [a, b, c, d]
  {
    Join4(a, b, c, d);
    SplitJoin([a, b, c, d]);
  }

  lemma WordsParse7(a: string, b: string, c: string, d: string, e: string, f: string, g: string)
    requires IsToken(a) && IsToken(b) && IsToken(c) && IsToken(d) && IsToken(e) && IsToken(f) && IsToken(g)
    ensures Split(a + " " + b + " " + c + " " + d + " " + e + " " + f + " " + g) == [a, b, c, d, e, f, g]
  {
    Join7(a, b, c, d, e, f, g);
    SplitJoin([a, b, c, d, e, f, g]);
  }

  lemma Join3(a: string, b: string, c: string)
    ensures Join([a, b, c]) == a + " " + b + " " + c
  {
    JoinCons(b, [c]);
    JoinCons(a, [b, c]);
    assert [a, b, c] == [a] + [b, c] && [b, c] == [b] + [c];
  }

  lemma Join4(a: string, b: string, c: string, d: string)
    ensures Join([a, b, c, d]) == a + " " + b + " " + c + " " + d
  {
    Join3(b, c, d);
    JoinCons(a, [b, c, d]);
    assert [a, b, c, d] == [a] + [b, c, d];
  }

  lemma Join7(a: string, b: string, c: string, d: string, e: string, f: string, g: string)
    ensures Join([a, b, c, d, e, f, g]) == a + " " + b + " " + c + " " + d + " " + e + " " + f + " " + g
  {
    Join4(d, e, f, g);
    JoinCons(c, [d, e, f, g]);
    assert [c, d, e, f, g] == [c] + [d, e, f, g];
    JoinCons(b, [c, d, e, f, g]);
    assert [b, c, d, e, f, g] == [b] + [c, d, e, f, g];
    JoinCons(a, [b, c, d, e, f, g]);
    assert [a, b, c, d, e, f, g] == [a] + [b, c, d, e, f, g];
  }

  predicate IsDigit(c: char) {
    '0' <= c <= '9'
  }

  function DigitChar(d: nat): (c: char)
    requires d < 10
    ensures IsDigit(c)
  {
    (48 + d) as char
  }

  function DigitValue(c: char): (d: nat)
    requires IsDigit(c)
    ensures d < 10
  {
    c as int - 48
  }

  /** `str(n)` for a non-negative integer: decimal digits, no leading zero. */
  function NatToString(n: nat): (s: string)
    ensures |s| > 0 && forall i :: 0 <= i < |s| ==> IsDigit(s[i])
    ensures s[0] == '0' <==> n == 0
    ensures n == 0 ==> s == "0"
    decreases n
  {
    if n < 10 then [DigitChar(n)] else NatToString(n / 10) + [DigitChar(n % 10)]
  }

  /** `str(i)` for any integer. */
  function IntToString(i: int): (s: string)
    ensures IsToken(s)
  {
    if i < 0 then "-" + NatToString(-i) else NatToString(i)
  }

  /** The value of a string of decimal digits, most significant first. */
  function DigitsValue(ds: string): nat
    requires forall i :: 0 <= i < |ds| ==> IsDigit(ds[i])
    decreases |ds|
  {
    if ds == "" then 0 else DigitsValue(ds[..|ds| - 1]) * 10 + DigitValue(ds[|ds| - 1])
  }

  /** The digits of a Python numeral once its `_` separators are dropped. */
  function DropUnderscores(s: string): (r: string)
    ensures |r| <= |s|
    ensures (forall i :: 0 <= i < |s| ==> s[i] != '_') ==> r == s
    ensures (forall i :: 0 <= i < |s| ==> IsDigit(s[i]) || s[i] == '_') ==>
              forall i :: 0 <= i < |r| ==> IsDigit(r[i])
  {
    if s == "" then "" else (if s[0] == '_' then "" else [s[0]]) + DropUnderscores(s[1..])
  }

  /** The unsigned decimal numerals `int()` accepts: digits, with single `_` allowed
      between two digits. */
  predicate IsNumeral(b: string) {
    && |b| > 0 && IsDigit(b[0]) && IsDigit(b[|b| - 1])
    && (forall i :: 0 <= i < |b| ==> IsDigit(b[i]) || b[i] == '_')
    && (forall i :: 0 <= i < |b| - 1 ==> b[i] == '_' ==> b[i + 1] != '_')
  }

  function NumeralValue(b: string): nat
    requires IsNumeral(b)
  {
    DigitsValue(DropUnderscores(b))
  }

  /** `int(s)` for a string without surrounding whitespace: an optional sign and a
      numeral; `None` where Python raises `ValueError`. */
  function ParseInt(s: string): (r: Option<int>)
    ensures r.Some? && |s| > 0 && IsDigit(s[0]) ==> r.value >= 0
    ensures r.Some? ==> |s| > 0 && (IsDigit(s[0]) || s[0] == '-' || s[0] == '+')
  {
    if |s| > 0 && (s[0] == '-' || s[0] == '+') then
      if IsNumeral(s[1..]) then
        Some(if s[0] == '-' then 0 - NumeralValue(s[1..]) else NumeralValue(s[1..]))
      else None
    else if IsNumeral(s) then Some(NumeralValue(s))
    else None
  }

  lemma {:induction false} DigitsValueOfNatToString(n: nat)
    ensures DigitsValue(NatToString(n)) == n
    decreases n
  {
    var s := NatToString(n);
    if n < 10 {
      assert s[..|s| - 1] == "";
    } else {
      assert s[..|s| - 1] == NatToString(n / 10);
      DigitsValueOfNatToString(n / 10);
    }
  }

  lemma NatToStringIsNumeral(n: nat)
    ensures IsNumeral(NatToString(n))
    ensures NumeralValue(NatToString(n)) == n
  {
    var digits := NatToString(n);
    assert forall i :: 0 <= i < |digits| ==> digits[i] != '_';
    DigitsValueOfNatToString(n);
  }

  /** The decimal form of a number is never mistaken for a signed numeral, and reads
      back as that number. */
  lemma ParseNatRoundTrip(n: nat)
    ensures IsDigit(NatToString(n)[0]) && ParseInt(NatToString(n)) == Some(n)
  {
    var digits := NatToString(n);
    NatToStringIsNumeral(n);
    assert IsDigit(digits[0]);
    assert !(digits[0] == '-' || digits[0] == '+');
  }

  /** A minus sign before the decimal form of a number reads back as its negation. */
  lemma ParseNegativeRoundTrip(n: nat)
    ensures ParseInt("-" + NatToString(n)) == Some(0 - n)
  {
    var digits := NatToString(n);
    var s := "-" + digits;
    assert s[0] == '-' && s[1..] == digits;
    NatToStringIsNumeral(n);
  }

  /** `int(str(i)) == i`: the dealer index written into a `new_game` line is read back
      unchanged. */
  lemma ParseIntRoundTrip(i: int)
    ensures ParseInt(IntToString(i)) == Some(i)
  {
    if i < 0 {
      ParseNegativeRoundTrip(-i);
    } else {
      ParseNatRoundTrip(i);
    }
  }
}
