/** The string operations of Python's `str` that the bot relies on:
    case mapping, whitespace splitting, splitting on one character,
    joining, character removal, counting and number parsing. Case mapping
    covers the ASCII letters only. */
module Text {
  import opened Common

  // ----- characters -----

  predicate IsAscii(c: char) { c as int < 128 }

  predicate IsAsciiLetter(c: char) { 'a' <= c <= 'z' || 'A' <= c <= 'Z' }

  predicate IsDigit(c: char) { '0' <= c <= '9' }

  predicate IsAsciiAlnum(c: char) { IsAsciiLetter(c) || IsDigit(c) }

  /** The characters for which Python's `str.isspace()` holds. */
  predicate IsSpace(c: char) {
    c == ' ' || c == '\t' || c == '\n' || c == '\r' || c == '\U{000B}' || c == '\U{000C}'
    || ('\U{001C}' <= c <= '\U{001F}') || c == '\U{0085}' || c == '\U{00A0}'
    || c == '\U{1680}' || ('\U{2000}' <= c <= '\U{200A}') || c == '\U{2028}'
    || c == '\U{2029}' || c == '\U{202F}' || c == '\U{205F}' || c == '\U{3000}'
  }

  function UpperChar(c: char): (u: char)
    ensures IsAsciiLetter(c) ==> 'A' <= u <= 'Z'
    ensures !('a' <= c <= 'z') ==> u == c
  {
    if 'a' <= c <= 'z' then (c as int - 32) as char else c
  }

  function LowerChar(c: char): (l: char)
    ensures IsAsciiLetter(c) ==> 'a' <= l <= 'z'
    ensures !('A' <= c <= 'Z') ==> l == c
  {
    if 'A' <= c <= 'Z' then (c as int + 32) as char else c
  }

  // ----- whole strings -----

  /** `s.upper()` */
  function Upper(s: string): (r: string)
    ensures |r| == |s|
  {
    seq(|s|, i requires 0 <= i < |s| => UpperChar(s[i]))
  }

  /** `s.lower()` */
  function Lower(s: string): (r: string)
    ensures |r| == |s|
  {
    seq(|s|, i requires 0 <= i < |s| => LowerChar(s[i]))
  }

  /** `s.capitalize()`: the first character upper-cased, the rest lower-cased. */
  function Capitalize(s: string): (r: string)
    ensures |r| == |s|
  {
    if s == [] then [] else [UpperChar(s[0])] + Lower(s[1..])
  }

  predicate IsUpperCased(s: string) { forall i :: 0 <= i < |s| ==> !('a' <= s[i] <= 'z') }

  predicate IsLowerCased(s: string) { forall i :: 0 <= i < |s| ==> !('A' <= s[i] <= 'Z') }

  lemma UpperIsUpperCased(s: string)
    ensures IsUpperCased(Upper(s)) && Upper(Upper(s)) == Upper(s)
  {
  }

  lemma LowerIsLowerCased(s: string)
    ensures IsLowerCased(Lower(s)) && Lower(Lower(s)) == Lower(s)
  {
  }

  lemma UpperOfUpperCased(s: string)
    requires IsUpperCased(s)
    ensures Upper(s) == s
  {
  }

  lemma LowerOfLowerCased(s: string)
    requires IsLowerCased(s)
    ensures Lower(s) == s
  {
  }

  /** `s.isascii()` */
  predicate AllAscii(s: string) { forall i :: 0 <= i < |s| ==> IsAscii(s[i]) }

  predicate AllAsciiAlnum(s: string) { forall i :: 0 <= i < |s| ==> IsAsciiAlnum(s[i]) }

  predicate AllDigits(s: string) { forall i :: 0 <= i < |s| ==> IsDigit(s[i]) }

  predicate NoSpace(s: string) { forall i :: 0 <= i < |s| ==> !IsSpace(s[i]) }

  /** The string without any occurrence of `c`: `s.replace(c, '')`. */
  function RemoveChar(s: string, c: char): (r: string)
    ensures forall i :: 0 <= i < |r| ==> r[i] != c
    ensures forall i :: 0 <= i < |r| ==> r[i] in s
    ensures c !in s ==> r == s
  {
    if s == [] then [] else (if s[0] == c then [] else [s[0]]) + RemoveChar(s[1..], c)
  }

  /** The string without its whitespace characters. */
  function RemoveSpaces(s: string): (r: string)
  {
    if s == [] then [] else (if IsSpace(s[0]) then [] else [s[0]]) + RemoveSpaces(s[1..])
  }

  /** `s.count(c)` for a one-character `c`. */
  function Count(s: string, c: char): nat
  {
    if s == [] then 0 else (if s[0] == c then 1 else 0) + Count(s[1..], c)
  }

  lemma {:induction false} CountZero(s: string, c: char)
    ensures Count(s, c) == 0 <==> c !in s
  {
    if s != [] {
      CountZero(s[1..], c);
      assert c in s <==> s[0] == c || c in s[1..];
    }
  }

  // ----- `s.split()` with no argument -----

  /** The leading run of non-whitespace characters. */
  function TakeWord(s: string): (w: string)
    ensures |w| <= |s| && w == s[..|w|]
    ensures NoSpace(w)
    ensures |w| < |s| ==> IsSpace(s[|w|])
    ensures s != [] && !IsSpace(s[0]) ==> |w| >= 1
  {
    if s == [] || IsSpace(s[0]) then [] else [s[0]] + TakeWord(s[1..])
  }

  /** `s.split()`: the maximal runs of non-whitespace characters, in order. */
  function Words(s: string): (ws: seq<string>)
    decreases |s|
  {
    if s == [] then []
    else if IsSpace(s[0]) then Words(s[1..])
    else
      var w := TakeWord(s);
      [w] + Words(s[|w|..])
  }

  /** `sep.join(parts)` */
  function Join(sep: string, parts: seq<string>): string
  {
    if parts == [] then ""
    else if |parts| == 1 then parts[0]
    else parts[0] + sep + Join(sep, parts[1..])
  }

  /** `''.join(parts)` */
  function Concat(parts: seq<string>): string
  {
    if parts == [] then "" else parts[0] + Concat(parts[1..])
  }

  lemma {:induction false} WordsAreWords(s: string)
    ensures forall i :: 0 <= i < |Words(s)| ==> |Words(s)[i]| > 0 && NoSpace(Words(s)[i])
    decreases |s|
  {
    if s == [] {
    } else if IsSpace(s[0]) {
      WordsAreWords(s[1..]);
    } else {
      var w := TakeWord(s);
      WordsAreWords(s[|w|..]);
    }
  }

  lemma {:induction false} RemoveSpacesOfWord(w: string, rest: string)
    requires NoSpace(w)
    ensures RemoveSpaces(w + rest) == w + RemoveSpaces(rest)
  {
    if w != [] {
      assert (w + rest)[0] == w[0];
      assert (w + rest)[1..] == w[1..] + rest;
      RemoveSpacesOfWord(w[1..], rest);
    } else {
      assert w + rest == rest;
    }
  }

  /** `''.join(s.split())` removes exactly the whitespace of `s`. */
  lemma {:induction false} ConcatWords(s: string)
    ensures Concat(Words(s)) == RemoveSpaces(s)
    decreases |s|
  {
    if s == [] {
    } else if IsSpace(s[0]) {
      ConcatWords(s[1..]);
    } else {
      var w := TakeWord(s);
      ConcatWords(s[|w|..]);
      assert s == w + s[|w|..];
      RemoveSpacesOfWord(w, s[|w|..]);
    }
  }

  lemma {:induction false} RemoveSpacesHasNoSpace(s: string)
    ensures NoSpace(RemoveSpaces(s))
  {
    if s != [] {
      RemoveSpacesHasNoSpace(s[1..]);
    }
  }

  /** A string with no whitespace splits into itself alone (or nothing when empty). */
  lemma {:induction false} WordsOfWord(w: string)
    requires NoSpace(w)
    ensures Words(w) == if w == [] then [] else [w]
  {
    if w != [] {
      TakeWordOfWord(w);
    }
  }

  lemma {:induction false} TakeWordOfWord(w: string)
    requires NoSpace(w)
    ensures TakeWord(w) == w
  {
    if w != [] {
      TakeWordOfWord(w[1..]);
    }
  }

  // ----- `s.split(c)` -----

  /** `s.split(c)` for a one-character separator. */
  function SplitOn(s: string, c: char): (parts: seq<string>)
    ensures |parts| >= 1
  {
    if c !in s then [s]
    else
      var i := IndexOf(s, c);
      [s[..i]] + SplitOn(s[i + 1..], c)
  }

  function IndexOf(s: string, c: char): (i: nat)
    requires c in s
    ensures i < |s| && s[i] == c && c !in s[..i]
  {
    if s[0] == c then 0 else 1 + IndexOf(s[1..], c)
  }

  lemma {:induction false} SplitOnCount(s: string, c: char)
    ensures |SplitOn(s, c)| == Count(s, c) + 1
    decreases |s|
  {
    CountZero(s, c);
    if c in s {
      var i := IndexOf(s, c);
      SplitOnCount(s[i + 1..], c);
      CountSplit(s, i, c);
      CountZero(s[..i], c);
    }
  }

  lemma {:induction false} CountSplit(s: string, i: nat, c: char)
    requires i < |s|
    ensures Count(s, c) == Count(s[..i], c) + Count([s[i]], c) + Count(s[i + 1..], c)
  {
    if i == 0 {
      assert s[..0] == [];
      assert s == [s[0]] + s[1..];
      assert [s[0]][1..] == [];
    } else {
      CountSplit(s[1..], i - 1, c);
      assert s[1..][..i - 1] == s[1..i];
      assert s[1..][i - 1] == s[i];
      assert s[1..][i..] == s[i + 1..];
      assert s[..i] == [s[0]] + s[1..i];
      assert (s[..i])[1..] == s[1..i];
    }
  }

  /** Splitting `a + c + rest`, where `a` holds no `c`, yields `a` first. */
  lemma {:induction false} SplitOnCons(a: string, c: char, rest: string)
    requires c !in a
    ensures SplitOn(a + [c] + rest, c) == [a] + SplitOn(rest, c)
  {
    var s := a + [c] + rest;
    assert s[|a|] == c;
    var i := IndexOf(s, c);
    if i < |a| {
      assert false;
    } else if i > |a| {
      assert false;
    }
    assert s[..i] == a;
    assert s[i + 1..] == rest;
  }

  /** A character in neither the separator nor the parts is not in the join. */
  lemma {:induction false} JoinAvoids(sep: string, parts: seq<string>, c: char)
    requires c !in sep && forall i :: 0 <= i < |parts| ==> c !in parts[i]
    ensures c !in Join(sep, parts)
  {
    if |parts| > 1 {
      JoinAvoids(sep, parts[1..], c);
    }
  }

  /** Splitting a join on its one-character separator gives the parts back,
      when no part holds the separator. */
  lemma {:induction false} SplitOnJoin(parts: seq<string>, c: char)
    requires |parts| >= 1 && forall i :: 0 <= i < |parts| ==> c !in parts[i]
    ensures SplitOn(Join([c], parts), c) == parts
  {
    if |parts| > 1 {
      SplitOnJoin(parts[1..], c);
      SplitOnCons(parts[0], c, Join([c], parts[1..]));
      assert [parts[0]] + parts[1..] == parts;
    }
  }

  // ----- numbers -----

  function DigitChar(d: nat): (c: char)
    requires d < 10
    ensures IsDigit(c)
  {
    "0123456789"[d]
  }

  function DigitValue(c: char): (d: nat)
    requires IsDigit(c)
    ensures d < 10
  {
    c as int - '0' as int
  }

  lemma DigitRoundTrip(d: nat)
    requires d < 10
    ensures DigitValue(DigitChar(d)) == d
  {
  }

  /** Decimal rendering of a natural number, as `str(n)` writes it. */
  function NatToString(n: nat): (s: string)
    ensures |s| >= 1 && AllDigits(s)
    decreases n
  {
    if n < 10 then [DigitChar(n)] else NatToString(n / 10) + [DigitChar(n % 10)]
  }

  function DigitsValue(s: string): nat
    requires AllDigits(s)
  {
    if s == [] then 0 else DigitsValue(s[..|s| - 1]) * 10 + DigitValue(s[|s| - 1])
  }

  lemma {:induction false} NatToStringValue(n: nat)
    ensures DigitsValue(NatToString(n)) == n
    decreases n
  {
    var s := NatToString(n);
    if n < 10 {
      DigitRoundTrip(n);
    } else {
      NatToStringValue(n / 10);
      DigitRoundTrip(n % 10);
      assert s[..|s| - 1] == NatToString(n / 10);
    }
  }

  /** `s.strip()`: without leading and trailing whitespace. */
  function Strip(s: string): (r: string)
    ensures |r| <= |s|
  {
    StripEnd(StripStart(s))
  }

  function StripStart(s: string): (r: string)
    ensures |r| <= |s|
    ensures NoSpace(s) ==> r == s
  {
    if s != [] && IsSpace(s[0]) then StripStart(s[1..]) else s
  }

  function StripEnd(s: string): (r: string)
    ensures |r| <= |s|
    ensures NoSpace(s) ==> r == s
  {
    if s != [] && IsSpace(s[|s| - 1]) then StripEnd(s[..|s| - 1]) else s
  }

  /** Python's `int(s)` on a decimal string: surrounding whitespace, an
      optional sign and at least one ASCII digit; anything else raises
      ValueError, modelled as None. */
  function ParseInt(s: string): (r: Option<int>)
  {
    var t := Strip(s);
    if |t| >= 2 && (t[0] == '-' || t[0] == '+') && AllDigits(t[1..]) then
      Some(if t[0] == '-' then -(DigitsValue(t[1..]) as int) else DigitsValue(t[1..]) as int)
    else if |t| >= 1 && AllDigits(t) then Some(DigitsValue(t) as int)
    else None
  }

  function Pow10(k: nat): (p: nat)
    ensures p >= 1
  {
    if k == 0 then 1 else 10 * Pow10(k - 1)
  }

  /** The digits `d` after the point, `k` of them, as a fraction. */
  function Fraction(d: nat, k: nat): real
  {
    d as real / Pow10(k) as real
  }

  /** The value of an unsigned decimal "ddd", "ddd.ddd", "ddd." or ".ddd". */
  function UnsignedDecimal(t: string): (r: Option<real>)
  {
    if '.' !in t then
      (if |t| >= 1 && AllDigits(t) then Some(DigitsValue(t) as real) else None)
    else
      var i := IndexOf(t, '.');
      var whole, frac := t[..i], t[i + 1..];
      if |whole| + |frac| >= 1 && AllDigits(whole) && AllDigits(frac) then
        Some(DigitsValue(whole) as real + Fraction(DigitsValue(frac), |frac|))
      else None
  }

  /** Python's `float(s)` on a decimal string with an optional sign and
      surrounding whitespace; anything else raises ValueError, modelled as None. */
  function ParseFloat(s: string): (r: Option<real>)
  {
    var t := Strip(s);
    if |t| >= 1 && (t[0] == '-' || t[0] == '+') then
      match UnsignedDecimal(t[1..])
      case Some(v) => Some(if t[0] == '-' then -v else v)
      case None => None
    else UnsignedDecimal(t)
  }

  lemma {:induction false} ParseIntOfNat(n: nat)
    ensures ParseInt(NatToString(n)) == Some(n)
  {
    var s := NatToString(n);
    NatToStringValue(n);
    assert NoSpace(s) by {
      forall i | 0 <= i < |s| ensures !IsSpace(s[i]) {
        assert IsDigit(s[i]);
      }
    }
    assert Strip(s) == s;
  }

  lemma {:induction false} ParseFloatOfNat(n: nat)
    ensures ParseFloat(NatToString(n)) == Some(n as real)
  {
    var s := NatToString(n);
    NatToStringValue(n);
    assert NoSpace(s) by {
      forall i | 0 <= i < |s| ensures !IsSpace(s[i]) {
        assert IsDigit(s[i]);
      }
    }
    assert Strip(s) == s;
    assert forall i :: 0 <= i < |s| ==> s[i] != '.';
    assert '.' !in s;
  }

  /** The first `c` of `a + [c] + b`, where `a` holds none, ends `a`. */
  lemma {:induction false} IndexOfJoin(a: string, c: char, b: string)
    requires c !in a
    ensures c in a + [c] + b
    ensures IndexOf(a + [c] + b, c) == |a|
    ensures (a + [c] + b)[..|a|] == a && (a + [c] + b)[|a| + 1..] == b
  {
    var s := a + [c] + b;
    assert s[|a|] == c;
    var k := IndexOf(s, c);
    if k != |a| {
      assert false;
    }
  }

  /** An unsigned "W.F" of digits on both sides. */
  lemma {:induction false} UnsignedDecimalOfDigits(W: string, F: string)
    requires |W| >= 1 && AllDigits(W) && AllDigits(F)
    ensures UnsignedDecimal(W + "." + F) == Some(DigitsValue(W) as real + Fraction(DigitsValue(F), |F|))
  {
    assert '.' !in W by {
      forall i | 0 <= i < |W| ensures W[i] != '.' {
        assert IsDigit(W[i]);
      }
    }
    var s := W + "." + F;
    assert s == W + ['.'] + F;
    IndexOfJoin(W, '.', F);
    var i := IndexOf(s, '.');
    assert s[..i] == W && s[i + 1..] == F;
    assert AllDigits(s[..i]) && AllDigits(s[i + 1..]);
  }

  /** Digits and one dot hold no whitespace and no colon. */
  lemma {:induction false} DecimalNoSpace(W: string, F: string)
    requires AllDigits(W) && AllDigits(F)
    ensures NoSpace(W + "." + F) && ':' !in W + "." + F
  {
    var s := W + "." + F;
    forall i | 0 <= i < |s| ensures !IsSpace(s[i]) && s[i] != ':' {
      if i < |W| {
        assert s[i] == W[i] && IsDigit(W[i]);
      } else if i > |W| {
        assert s[i] == F[i - |W| - 1] && IsDigit(F[i - |W| - 1]);
      }
    }
  }

  /** `float()` of "w.f" is w plus f over ten to the number of digits of f. */
  lemma {:induction false} ParseFloatOfDecimal(w: nat, f: nat)
    ensures ':' !in NatToString(w) + "." + NatToString(f)
    ensures ParseFloat(NatToString(w) + "." + NatToString(f)) == Some(w as real + Fraction(f, |NatToString(f)|))
  {
    var W, F := NatToString(w), NatToString(f);
    var s := W + "." + F;
    NatToStringValue(w);
    NatToStringValue(f);
    DecimalNoSpace(W, F);
    assert Strip(s) == s;
    assert s[0] == W[0] && IsDigit(W[0]);
    UnsignedDecimalOfDigits(W, F);
  }

  lemma {:induction false} ParseFloatOfNegated(n: nat)
    ensures ParseFloat("-" + NatToString(n)) == Some(-(n as real))
  {
    var d := NatToString(n);
    var s := "-" + d;
    NatToStringValue(n);
    assert NoSpace(s) by {
      forall i | 0 <= i < |s| ensures !IsSpace(s[i]) {
        if i > 0 {
          assert s[i] == d[i - 1];
          assert IsDigit(d[i - 1]);
        }
      }
    }
    assert Strip(s) == s;
    assert s[1..] == d;
    assert forall i :: 0 <= i < |d| ==> d[i] != '.';
    assert '.' !in d;
  }

  // ----- re.escape -----

  /** The characters `re.escape` puts a backslash before. */
  const REGEX_SPECIAL: set<char> :=
    {'(', ')', '[', ']', '{', '}', '?', '*', '+', '-', '|', '^', '$', '\\', '.', '&', '~', '#',
     ' ', '\t', '\n', '\r', '\U{000B}', '\U{000C}'}

  /** `re.escape(s)` */
  function RegexEscape(s: string): (r: string)
    ensures |r| >= |s|
    ensures forall i :: 0 <= i < |s| ==> s[i] !in REGEX_SPECIAL ==> s[i] in r
  {
    if s == [] then []
    else if s[0] in REGEX_SPECIAL then ['\\', s[0]] + RegexEscape(s[1..])
    else [s[0]] + RegexEscape(s[1..])
  }

  /** Reading an escaped pattern back: a backslash stands for the character
      after it. */
  function RegexUnescape(p: string): string
    decreases |p|
  {
    if p == [] then []
    else if p[0] == '\\' && |p| >= 2 then [p[1]] + RegexUnescape(p[2..])
    else [p[0]] + RegexUnescape(p[1..])
  }

  /** The escaped pattern stands for the literal text: unescaping gives the
      argument back. */
  lemma {:induction false} EscapeRoundTrip(s: string)
    ensures RegexUnescape(RegexEscape(s)) == s
  {
    if s != [] {
      EscapeRoundTrip(s[1..]);
      var e := RegexEscape(s);
      if s[0] in REGEX_SPECIAL {
        assert e[2..] == RegexEscape(s[1..]);
      } else {
        assert e[1..] == RegexEscape(s[1..]);
      }
    }
  }
}
