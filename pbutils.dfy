/** The record helpers of internal/pb_utils.py: the sign test on a record,
    the rendering of negative times, the dispatch of `display_record`, and
    the numbered scoreboard. */
module PbUtils {
  import opened Common
  import opened Text
  import opened Constants

  /** The argument of `check_negative`: a string typed by a user or a
      float taken from a document. */
  datatype PyValue = Text(s: string) | Number(f: real)

  /** Python's `float(v)`; None stands for the ValueError. */
  function AsFloat(v: PyValue): Option<real>
  {
    match v
    case Number(f) => Some(f)
    case Text(s) => ParseFloat(s)
  }

  /** `check_negative(s)`: True when the value converts and is below zero;
      a ValueError is caught and gives False. */
  function CheckNegative(v: PyValue): (r: bool)
    ensures r <==> AsFloat(v).Some? && AsFloat(v).value < 0.0
    ensures v.Number? ==> (r <==> v.f < 0.0)
  {
    match v
    case Number(f) => if f < 0.0 then true else false
    case Text(s) =>
      match ParseFloat(s)
      case Some(f) => if f < 0.0 then true else false
      case None => false
  }

  /** A typed "-n" is negative exactly when n is not zero; a typed "n"
      never is, and neither is text that is not a number. */
  lemma CheckNegativeOfText(n: nat)
    ensures CheckNegative(Text("-" + NatToString(n))) <==> n > 0
    ensures !CheckNegative(Text(NatToString(n)))
    ensures !CheckNegative(Text(""))
  {
    ParseFloatOfNegated(n);
    ParseFloatOfNat(n);
  }

  /** `format_timedelta(td)`: a negative time is '-' followed by the
      rendering of its negation; `render` is `str` of a float. */
  function FormatTimedelta(td: real, render: real -> string): (r: string)
    ensures td < 0.0 ==> r == "-" + render(-td)
    ensures td >= 0.0 ==> r == render(td)
    decreases if td < 0.0 then 1 else 0
  {
    if td < 0.0 then "-" + FormatTimedelta(-td, render) else render(td)
  }

  /** Python's `s[: -4 or None]`, that is `s[:-4]`. */
  function DropLast4(s: string): (r: string)
    ensures |s| >= 4 ==> r == s[..|s| - 4]
    ensures |s| < 4 ==> r == ""
  {
    if |s| >= 4 then s[..|s| - 4] else ""
  }

  /** `display_record(record)`: negative records go to `format_timedelta`;
      the others are `str(timedelta(seconds=record))` (`clock`), cut by
      four characters when it shows a fraction and padded with ".00"
      otherwise. */
  function DisplayRecord(record: real, clock: real -> string, render: real -> string): (r: string)
    ensures record < 0.0 ==> r == "-" + render(-record)
    ensures record >= 0.0 && Count(clock(record), '.') == 1 ==> r == DropLast4(clock(record))
    ensures record >= 0.0 && Count(clock(record), '.') != 1 ==> r == clock(record) + ".00"
  {
    if CheckNegative(Number(record)) then FormatTimedelta(record, render)
    else if Count(clock(record), '.') == 1 then DropLast4(clock(record))
    else clock(record) + ".00"
  }

  // ----- boards -----

  /** One field of a scoreboard embed: "#rank - name", the record and the
      verified mark. */
  datatype BoardField = BoardField(title: string, record: real, mark: string)

  function BoardFieldOf(rank: nat, e: PbRecord): BoardField
  {
    BoardField("#" + NatToString(rank) + " - " + e.name, e.record,
               if e.verified then VERIFIED_EMOJI else NOT_VERIFIED_EMOJI)
  }

  /** The fields for `rows`, numbered from 1 in order. */
  function Numbered(rows: seq<PbRecord>): (fields: seq<BoardField>)
    ensures |fields| == |rows|
    ensures forall k :: 0 <= k < |rows| ==> fields[k] == BoardFieldOf(k + 1, rows[k])
  {
    seq(|rows|, k requires 0 <= k < |rows| => BoardFieldOf(k + 1, rows[k]))
  }

  /** What `boards` sends: the embed, or the "No scoreboard" text. */
  datatype Board = Embed(title: string, fields: seq<BoardField>) | Reply(text: string)

  /** `boards(ctx, map_code, level, title, query)`; `entries` is the query
      result sorted by record, of which the first 10 are read. */
  method Boards(mapCode: string, level: string, title: string, entries: seq<PbRecord>)
    returns (out: Board)
    ensures out.Reply? <==> entries == []
    ensures out.Reply? ==> out.text == "No scoreboard for " + mapCode + " level " + Upper(level) + "!"
    ensures out.Embed? ==> out.title == title && out.fields == Numbered(Take(entries, 10))
  {
    var rows := Take(entries, 10);
    var count := 1;
    var found := false;
    var fields: seq<BoardField> := [];
    var k := 0;
    while k < |rows|
      invariant 0 <= k <= |rows|
      invariant count == k + 1
      invariant found <==> k > 0
      invariant fields == Numbered(rows[..k])
    {
      found := true;
      fields := fields + [BoardFieldOf(count, rows[k])];
      count := count + 1;
      k := k + 1;
    }
    assert rows[..k] == rows;
    if found {
      out := Embed(title, fields);
    } else {
      out := Reply("No scoreboard for " + mapCode + " level " + Upper(level) + "!");
    }
  }

  /** At most ten fields, ranked 1, 2, ... in record order, and the rank
      is readable back from each field's title. */
  lemma BoardsNumbering(entries: seq<PbRecord>, k: nat)
    requires k < |Numbered(Take(entries, 10))|
    ensures |Numbered(Take(entries, 10))| <= 10
    ensures Numbered(Take(entries, 10))[k].title
         == "#" + NatToString(k + 1) + " - " + entries[k].name
    ensures DigitsValue(NatToString(k + 1)) == k + 1
  {
    NatToStringValue(k + 1);
  }
}
