/** The string helpers of internal/utilities.py: the ASCII test, the
    choice of a `strptime` format, the `H:M:S` to seconds conversion and
    the expansion of short map-type names. */
module Utilities {
  import opened Common
  import opened Text
  import opened Constants

  /** `is_english(s)`: `s.isascii()`, one character at a time. */
  function IsEnglish(s: string): (r: bool)
    ensures r <==> AllAscii(s)
  {
    if s == [] then true
    else
      assert forall i :: 1 <= i < |s| ==> s[i] == s[1..][i - 1];
      IsAscii(s[0]) && IsEnglish(s[1..])
  }

  // ----- date_func -----

  /** The six formats `date_func` can hand to `strptime`. */
  const DATE_FORMATS: seq<string> :=
    ["%S", "%S.%f", "%M:%S.%f", "%M:%S", "%H:%M:%S.%f", "%H:%M:%S"]

  /** The format `date_func` picks from the number of ':' and '.' in `s`,
      or None when no branch applies. Each format has exactly as many ':'
      and '.' as the input it is picked for. */
  function DateFormat(s: string): (r: Option<string>)
    ensures r.Some? <==> Count(s, ':') <= 2 && Count(s, '.') <= 1
    ensures r.Some? ==> r.value in DATE_FORMATS
    ensures r.Some? ==> Count(r.value, ':') == Count(s, ':') && Count(r.value, '.') == Count(s, '.')
  {
    FormatCounts();
    var colons, dots := Count(s, ':'), Count(s, '.');
    if colons == 0 && dots == 0 then Some("%S")
    else if colons == 0 && dots == 1 then Some("%S.%f")
    else if colons == 1 && dots == 1 then Some("%M:%S.%f")
    else if colons == 1 && dots == 0 then Some("%M:%S")
    else if colons == 2 && dots == 1 then Some("%H:%M:%S.%f")
    else if colons == 2 && dots == 0 then Some("%H:%M:%S")
    else None
  }

  /** The ':' and '.' counts of the six formats. */
  lemma FormatCounts()
    ensures Count("%S", ':') == 0 && Count("%S.%f", ':') == 0
    ensures Count("%M:%S", ':') == 1 && Count("%M:%S.%f", ':') == 1
    ensures Count("%H:%M:%S", ':') == 2 && Count("%H:%M:%S.%f", ':') == 2
    ensures Count("%S", '.') == 0 && Count("%S.%f", '.') == 1
    ensures Count("%M:%S", '.') == 0 && Count("%M:%S.%f", '.') == 1
    ensures Count("%H:%M:%S", '.') == 0 && Count("%H:%M:%S.%f", '.') == 1
  {
    FormatColons();
    FormatDots();
    HourColons();
    HourFractionColons();
    HourDots();
  }

  lemma FormatColons()
    ensures Count("%S", ':') == 0 && Count("%S.%f", ':') == 0
    ensures Count("%M:%S", ':') == 1 && Count("%M:%S.%f", ':') == 1
  {
  }

  lemma FormatDots()
    ensures Count("%S", '.') == 0 && Count("%S.%f", '.') == 1
    ensures Count("%M:%S", '.') == 0 && Count("%M:%S.%f", '.') == 1
  {
  }

  lemma HourColons()
    ensures Count("%H:%M:%S", ':') == 2
  {
  }

  lemma HourFractionColons()
    ensures Count("%H:%M:%S.%f", ':') == 2
  {
  }

  lemma HourDots()
    ensures Count("%H:%M:%S", '.') == 0 && Count("%H:%M:%S.%f", '.') == 1
  {
  }

  // ----- time_convert -----

  /** What `time_convert` gives: a number of seconds, Python's None, or a
      raised ValueError from `int()` / `float()`. */
  datatype TimeValue = Seconds(value: real) | NoTime | BadNumber

  /** `time_convert(time_input)`: split on ':' and combine the parts as
      s, 60 m + s or 3600 h + 60 m + s; more than three parts give None. */
  function TimeConvert(input: string): (r: TimeValue)
    ensures r == NoTime <==> Count(input, ':') >= 3
  {
    SplitOnCount(input, ':');
    var parts := SplitOn(input, ':');
    if |parts| == 1 then
      (match ParseFloat(parts[0])
       case Some(s) => Seconds(s)
       case None => BadNumber)
    else if |parts| == 2 then
      (match (ParseInt(parts[0]), ParseFloat(parts[1]))
       case (Some(m), Some(s)) => Seconds((m * 60) as real + s)
       case _ => BadNumber)
    else if |parts| == 3 then
      (match (ParseInt(parts[0]), ParseInt(parts[1]), ParseFloat(parts[2]))
       case (Some(h), Some(m), Some(s)) => Seconds((h * 3600) as real + (m * 60) as real + s)
       case _ => BadNumber)
    else NoTime
  }

  lemma {:induction false} NoColonInNumber(n: nat)
    ensures ':' !in NatToString(n)
  {
  }

  /** A plain number of seconds converts to itself. */
  lemma {:induction false} TimeConvertSeconds(s: nat)
    ensures TimeConvert(NatToString(s)) == Seconds(s as real)
  {
    NoColonInNumber(s);
    ParseFloatOfNat(s);
  }

  /** "m:s" converts to 60 m + s. */
  lemma {:induction false} TimeConvertMinutes(m: nat, s: nat)
    ensures TimeConvert(NatToString(m) + ":" + NatToString(s)) == Seconds((60 * m + s) as real)
  {
    var M, S := NatToString(m), NatToString(s);
    NoColonInNumber(m);
    NoColonInNumber(s);
    assert SplitOn(M + ":" + S, ':') == [M, S] by {
      SplitOnCons(M, ':', S);
      assert M + ":" + S == M + [':'] + S;
    }
    ParseIntOfNat(m);
    ParseFloatOfNat(s);
    TimeConvertOfTwo(M + ":" + S, m, s as real);
    assert 60.0 * m as real + s as real == (60 * m + s) as real;
  }

  /** "h:m:s" converts to 3600 h + 60 m + s. */
  lemma {:induction false} TimeConvertHours(h: nat, m: nat, s: nat)
    ensures TimeConvert(NatToString(h) + ":" + NatToString(m) + ":" + NatToString(s))
         == Seconds((3600 * h + 60 * m + s) as real)
  {
    var H, M, S := NatToString(h), NatToString(m), NatToString(s);
    NoColonInNumber(h);
    NoColonInNumber(m);
    NoColonInNumber(s);
    SplitThree(H, M, S);
    ParseIntOfNat(h);
    ParseIntOfNat(m);
    ParseFloatOfNat(s);
    TimeConvertOfThree(H + ":" + M + ":" + S, h, m, s as real);
    assert 3600.0 * h as real + 60.0 * m as real + s as real == (3600 * h + 60 * m + s) as real;
  }

  lemma {:induction false} SplitThree(a: string, b: string, c: string)
    requires ':' !in a && ':' !in b && ':' !in c
    ensures SplitOn(a + ":" + b + ":" + c, ':') == [a, b, c]
  {
    var rest := b + [':'] + c;
    SplitOnCons(b, ':', c);
    SplitOnCons(a, ':', rest);
    AppendAssoc(a + ":", b, ":");
    AppendAssoc(a + ":", b + ":", c);
    assert a + ":" + b + ":" + c == a + [':'] + rest;
  }

  /** Two fields: `int` of the minutes times 60 plus `float` of the
      seconds, fractions and signs included. */
  lemma {:induction false} TimeConvertOfTwo(input: string, m: int, s: real)
    requires |SplitOn(input, ':')| == 2
    requires ParseInt(SplitOn(input, ':')[0]) == Some(m)
    requires ParseFloat(SplitOn(input, ':')[1]) == Some(s)
    ensures TimeConvert(input) == Seconds(60.0 * m as real + s)
  {
  }

  /** Three fields: hours times 3600 plus minutes times 60 plus seconds. */
  lemma {:induction false} TimeConvertOfThree(input: string, h: int, m: int, s: real)
    requires |SplitOn(input, ':')| == 3
    requires ParseInt(SplitOn(input, ':')[0]) == Some(h)
    requires ParseInt(SplitOn(input, ':')[1]) == Some(m)
    requires ParseFloat(SplitOn(input, ':')[2]) == Some(s)
    ensures TimeConvert(input) == Seconds(3600.0 * h as real + 60.0 * m as real + s)
  {
  }

  /** "m:S" converts to 60 m plus whatever `float` reads from S, a
      fraction of a second included: with Text.ParseFloatOfDecimal,
      "1:23.45" is 60 + 23 + 45/100 seconds. */
  lemma {:induction false} TimeConvertMinutesOf(m: nat, S: string, v: real)
    requires ':' !in S && ParseFloat(S) == Some(v)
    ensures TimeConvert(NatToString(m) + ":" + S) == Seconds(60.0 * m as real + v)
  {
    var M := NatToString(m);
    NoColonInNumber(m);
    assert M + ":" + S == M + [':'] + S;
    SplitOnCons(M, ':', S);
    ParseIntOfNat(m);
    TimeConvertOfTwo(M + ":" + S, m, v);
  }

  // ----- convert_short_types -----

  /** The short names `convert_short_types` expands, and what to. */
  const SHORT_TYPES: map<string, string> := map[
    "MULTI" := "MULTILEVEL", "MULTILVL" := "MULTILEVEL", "MULTILEVEL" := "MULTILEVEL",
    "PIO" := "PIONEER", "PIONEER" := "PIONEER",
    "HC" := "HARDCORE", "HARDCORE" := "HARDCORE",
    "MC" := "MILDCORE", "MILDCORE" := "MILDCORE",
    "TA" := "TIME-ATTACK", "TIMEATTACK" := "TIME-ATTACK", "TIME-ATTACK" := "TIME-ATTACK"]

  /** `convert_short_types(map_type)`: a branch chain over the alias lists. */
  function ConvertShortTypes(mapType: string): (r: string)
    ensures r == mapType || r in TYPES_OF_MAP
    ensures mapType in TYPES_OF_MAP ==> r == mapType
  {
    if mapType in ["MULTI", "MULTILVL", "MULTILEVEL"] then "MULTILEVEL"
    else if mapType in ["PIO", "PIONEER"] then "PIONEER"
    else if mapType in ["HC", "HARDCORE"] then "HARDCORE"
    else if mapType in ["MC", "MILDCORE"] then "MILDCORE"
    else if mapType in ["TA", "TIMEATTACK", "TIME-ATTACK"] then "TIME-ATTACK"
    else mapType
  }

  /** The branch chain is the lookup table: an alias gives its expansion,
      anything else comes back unchanged. */
  lemma ConvertShortTypesIsTable(mapType: string)
    ensures ConvertShortTypes(mapType)
         == if mapType in SHORT_TYPES then SHORT_TYPES[mapType] else mapType
  {
    if mapType in ["MULTI", "MULTILVL", "MULTILEVEL"] {
      assert SHORT_TYPES[mapType] == "MULTILEVEL";
    } else if mapType in ["PIO", "PIONEER"] {
      assert SHORT_TYPES[mapType] == "PIONEER";
    } else if mapType in ["HC", "HARDCORE"] {
      assert SHORT_TYPES[mapType] == "HARDCORE";
    } else if mapType in ["MC", "MILDCORE"] {
      assert SHORT_TYPES[mapType] == "MILDCORE";
    } else if mapType in ["TA", "TIMEATTACK", "TIME-ATTACK"] {
      assert SHORT_TYPES[mapType] == "TIME-ATTACK";
    } else {
      assert mapType !in SHORT_TYPES;
    }
  }

  /** Expanding twice is expanding once. */
  lemma ConvertShortTypesIdempotent(mapType: string)
    ensures ConvertShortTypes(ConvertShortTypes(mapType)) == ConvertShortTypes(mapType)
  {
  }
}
