/** The help cog of cogs/maphelp.py: the list of accepted map names, one
    line per alias group, and the list of map types. */
module MapHelp {
  import opened Common
  import opened Text
  import opened Constants

  /** `cog_check`: True in the map channel and the map-submission channel;
      otherwise the coroutine returns None. */
  function CogCheck(channel: int, cfg: BotConfig): (r: Option<bool>)
    ensures r.Some? <==> channel == cfg.mapChannel || channel == cfg.mapSubmitChannel
    ensures r.Some? ==> r.value
  {
    if channel == cfg.mapChannel || channel == cfg.mapSubmitChannel then Some(true) else None
  }

  /** The `post` that `maps` builds from the alias groups: each group's
      aliases joined by " | ", then a newline. */
  function MapsPost(groups: seq<seq<string>>): string
  {
    if groups == [] then "" else Join(" | ", groups[0]) + "\n" + MapsPost(groups[1..])
  }

  /** `maps`: accumulate the post group by group, then wrap it in a code block. */
  method Maps() returns (text: string)
    ensures text == "```Acceptable map names:\n" + MapsPost(ALL_MAP_NAMES) + "```"
  {
    var post := "";
    var k := 0;
    while k < |ALL_MAP_NAMES|
      invariant 0 <= k <= |ALL_MAP_NAMES|
      invariant post + MapsPost(ALL_MAP_NAMES[k..]) == MapsPost(ALL_MAP_NAMES)
    {
      assert ALL_MAP_NAMES[k..][1..] == ALL_MAP_NAMES[k + 1..];
      AppendAssoc(post, Join(" | ", ALL_MAP_NAMES[k]) + "\n", MapsPost(ALL_MAP_NAMES[k + 1..]));
      post := post + (Join(" | ", ALL_MAP_NAMES[k]) + "\n");
      k := k + 1;
    }
    text := "```Acceptable map names:\n" + post + "```";
  }

  /** The post holds exactly one line per group, in order: splitting it at
      the newlines gives the joined groups and the empty rest after the
      last newline. */
  lemma {:induction false} MapsPostLines(groups: seq<seq<string>>)
    requires forall i, j :: 0 <= i < |groups| && 0 <= j < |groups[i]| ==> '\n' !in groups[i][j]
    ensures SplitOn(MapsPost(groups), '\n') == Lines(groups) + [""]
  {
    if groups != [] {
      var line, rest := Join(" | ", groups[0]), MapsPost(groups[1..]);
      assert '\n' !in line by {
        JoinAvoids(" | ", groups[0], '\n');
      }
      assert SplitOn(rest, '\n') == Lines(groups[1..]) + [""] by {
        MapsPostLines(groups[1..]);
      }
      assert MapsPost(groups) == line + ['\n'] + rest;
      calc {
        SplitOn(MapsPost(groups), '\n');
        == { SplitOnCons(line, '\n', rest); }
        [line] + SplitOn(rest, '\n');
        == { LinesCons(groups); }
        Lines(groups) + [""];
      }
    }
  }

  /** The first line, then the lines of the remaining groups. */
  lemma LinesCons(groups: seq<seq<string>>)
    requires groups != []
    ensures Lines(groups) == [Join(" | ", groups[0])] + Lines(groups[1..])
  {
  }

  /** Each group's aliases joined by " | ". */
  function Lines(groups: seq<seq<string>>): (lines: seq<string>)
    ensures |lines| == |groups|
  {
    seq(|groups|, k requires 0 <= k < |groups| => Join(" | ", groups[k]))
  }

  /** For the bot's own table: one line per alias group of ALL_MAP_NAMES. */
  lemma MapsListsEveryGroup()
    ensures SplitOn(MapsPost(ALL_MAP_NAMES), '\n') == Lines(ALL_MAP_NAMES) + [""]
  {
    AliasesAreLowerAlnum();
    forall i, j | 0 <= i < |ALL_MAP_NAMES| && 0 <= j < |ALL_MAP_NAMES[i]|
      ensures '\n' !in ALL_MAP_NAMES[i][j]
    {
    }
    MapsPostLines(ALL_MAP_NAMES);
  }

  /** `maptypes`: the types one per line in a code block. */
  function Maptypes(): (text: string)
  {
    "Map types:\n```" + Join("\n", TYPES_OF_MAP) + "```"
  }

  /** The lines of the `maptypes` block are the map types, in order. */
  lemma MaptypesListsEveryType()
    ensures |Maptypes()| >= 17 && Maptypes()[..14] == "Map types:\n```" && Maptypes()[|Maptypes()| - 3..] == "```"
    ensures SplitOn(Maptypes()[14..|Maptypes()| - 3], '\n') == TYPES_OF_MAP
  {
    assert forall i :: 0 <= i < |TYPES_OF_MAP| ==> '\n' !in TYPES_OF_MAP[i];
    SplitOnJoin(TYPES_OF_MAP, '\n');
    LinesBetween("Map types:\n```", Join("\n", TYPES_OF_MAP), "```", TYPES_OF_MAP);
  }

  /** The part of `pre + body + post` strictly between the two fences is
      `body`. */
  lemma LinesBetween(pre: string, body: string, post: string, lines: seq<string>)
    requires SplitOn(body, '\n') == lines
    ensures |pre + body + post| >= |pre| + |post|
    ensures (pre + body + post)[..|pre|] == pre && (pre + body + post)[|pre + body + post| - |post|..] == post
    ensures SplitOn((pre + body + post)[|pre|..|pre + body + post| - |post|], '\n') == lines
  {
    assert (pre + body + post)[|pre|..|pre + body + post| - |post|] == body;
  }
}
