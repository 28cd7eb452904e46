/** The older personal-best viewer, cogs/viewpersonalbest.py: plain-text
    PrettyTable replies instead of embeds, exact (case-sensitive) level
    filters, and the level names as typed in titles. A table is modelled
    by its header and its rows; the record column holds the record time,
    whose `display_record` text is left to PbUtils.DisplayRecord. */
module LegacyPersonalBestViews {
  import opened Common
  import opened Text
  import opened Chat
  import opened Constants
  import PbUtils

  /** `cog_check`: the record channel only (anything else is falsy). */
  predicate CogCheck(channel: int, cfg: BotConfig)
  {
    channel == cfg.recordChannel
  }

  /** One PrettyTable row: an optional leading cell (the level or the
      position), the record, the name and the verified mark. */
  datatype Row = Row(lead: Option<string>, record: real, name: string, mark: string)

  datatype Table = Table(header: seq<string>, rows: seq<Row>)

  /** What a command sends: the title, the table in a code block and a
      trailing url, or a plain sentence. */
  datatype Post = Posted(title: string, table: Table, url: string) | Said(text: string)

  function Mark(e: PbRecord): string
  {
    if e.verified then VERIFIED_EMOJI else NOT_VERIFIED_EMOJI
  }

  const LEVEL_HEADER: seq<string> := ["Level", "Record", "Name", "Verified"]
  const POSITION_HEADER: seq<string> := ["Position", "Record", "Name", "Verified"]
  const RECORD_HEADER: seq<string> := ["Record", "Name", "Verified"]

  function LevelRow(e: PbRecord): Row
  {
    Row(Some(e.level), e.record, e.name, Mark(e))
  }

  // ----- pb -----

  /** The filter of `pb`: the upper-cased code, the name (the author's
      when empty) and the level exactly as typed. */
  function PbQuery(mapCode: string, level: string, name: string, author: Member): (q: Query)
    ensures q.AllOf? && |q.conditions| == 3
    ensures q.conditions[1] == Eq("name", if name == "" then author.name else name)
    ensures q.conditions[2] == Eq("level", level)
  {
    AllOf([Eq("code", Upper(mapCode)), Eq("name", if name == "" then author.name else name), Eq("level", level)])
  }

  /** `pb(ctx, map_code, level, name="")`; `matches` are the documents of
      the filter. Only a unique match is shown: two documents for the same
      name and level read as none. */
  function Pb(matches: seq<PbRecord>): (out: Post)
    ensures out.Posted? <==> |matches| == 1
    ensures out.Posted? ==> (out.title == "" && out.url == matches[0].url
      && out.table.header == LEVEL_HEADER && |out.table.rows| == 1
      && out.table.rows[0].lead == Some(matches[0].level)
      && out.table.rows[0].record == matches[0].record
      && out.table.rows[0].name == matches[0].name
      && (out.table.rows[0].mark == VERIFIED_EMOJI <==> matches[0].verified))
    ensures out.Said? ==> out.text == "Personal best doesn't exist."
  {
    if |matches| == 1 then
      var search := matches[0];
      Posted("", Table(LEVEL_HEADER, [LevelRow(search)]), search.url)
    else Said("Personal best doesn't exist.")
  }

  // ----- scoreboard / leaderboard -----

  /** The rows of a ranking: positions 1, 2, ... in cursor order. */
  function Positions(rows: seq<PbRecord>): (r: seq<Row>)
    ensures |r| == |rows|
    ensures forall k :: 0 <= k < |rows| ==> (r[k].record == rows[k].record && r[k].name == rows[k].name
      && r[k].mark == Mark(rows[k]))
  {
    seq(|rows|, k requires 0 <= k < |rows| => Row(Some(NatToString(k + 1)), rows[k].record, rows[k].name, Mark(rows[k])))
  }

  /** The body shared by `scoreboard` and `leaderboard`: number the first
      ten entries with `count`, and post them if there was any. */
  method RankTable(title: string, noneText: string, entries: seq<PbRecord>) returns (out: Post)
    ensures out.Said? <==> entries == []
    ensures out.Said? ==> out.text == noneText
    ensures out.Posted? ==> out == Posted(title, Table(POSITION_HEADER, Positions(Take(entries, 10))), "")
  {
    var top := Take(entries, 10);
    var count := 1;
    var post := false;
    var rows: seq<Row> := [];
    var k := 0;
    while k < |top|
      invariant k <= |top|
      invariant count == k + 1
      invariant post <==> k > 0
      invariant rows == Positions(top[..k])
    {
      rows := rows + [Row(Some(NatToString(count)), top[k].record, top[k].name, Mark(top[k]))];
      post := true;
      count := count + 1;
      k := k + 1;
    }
    assert top[..k] == top;
    if post {
      out := Posted(title, Table(POSITION_HEADER, rows), "");
    } else {
      out := Said(noneText);
    }
  }

  /** The position column reads back as the rank, and each row carries
      the same record, name and mark as the newer cog's numbered embed
      field for the same entry. */
  lemma PositionsAgreeWithBoards(entries: seq<PbRecord>, k: nat)
    requires k < |Take(entries, 10)|
    ensures Positions(Take(entries, 10))[k].lead == Some(NatToString(k + 1))
    ensures DigitsValue(Positions(Take(entries, 10))[k].lead.value) == k + 1
    ensures var f := PbUtils.Numbered(Take(entries, 10))[k]; var r := Positions(Take(entries, 10))[k];
      f.record == r.record && f.mark == r.mark
      && f.title == "#" + r.lead.value + " - " + r.name
  {
    NatToStringValue(k + 1);
  }

  /** `scoreboard(ctx, map_code, level)`; `entries` are the documents of
      the code and the exact level, by record time. */
  method Scoreboard(mapCode: string, level: string, entries: seq<PbRecord>) returns (query: Query, out: Post)
    ensures query == AllOf([Eq("code", Upper(mapCode)), Eq("level", level)])
    ensures out.Said? <==> entries == []
    ensures out.Said? ==> out.text == "No scoreboard for " + Upper(mapCode) + " level " + level + "!"
    ensures out.Posted? ==> out == Posted("CODE: " + Upper(mapCode) + " LEVEL " + level
      + " - TOP 10 VERIFIED/UNVERIFIED RECORDS:\n", Table(POSITION_HEADER, Positions(Take(entries, 10))), "")
  {
    var code := Upper(mapCode);
    query := AllOf([Eq("code", code), Eq("level", level)]);
    out := RankTable("CODE: " + code + " LEVEL " + level + " - TOP 10 VERIFIED/UNVERIFIED RECORDS:\n",
                     "No scoreboard for " + code + " level " + level + "!", entries);
  }

  /** `leaderboard(ctx, map_code, level)`: as `scoreboard`, verified
      documents only. */
  method Leaderboard(mapCode: string, level: string, entries: seq<PbRecord>) returns (query: Query, out: Post)
    ensures query == AllOf([Eq("code", Upper(mapCode)), Eq("level", level), EqBool("verified", true)])
    ensures out.Said? <==> entries == []
    ensures out.Said? ==> out.text == "No leaderboard for " + Upper(mapCode) + " level " + level + "!"
    ensures out.Posted? ==> out == Posted("CODE: " + Upper(mapCode) + " LEVEL " + level
      + " - TOP 10 VERIFIED RECORDS:\n", Table(POSITION_HEADER, Positions(Take(entries, 10))), "")
  {
    var code := Upper(mapCode);
    query := AllOf([Eq("code", code), Eq("level", level), EqBool("verified", true)]);
    out := RankTable("CODE: " + code + " LEVEL " + level + " - TOP 10 VERIFIED RECORDS:\n",
                     "No leaderboard for " + code + " level " + level + "!", entries);
  }

  // ----- worldrecord -----

  /** The level names of the rows as stored, in row order. */
  function Levels(rows: seq<PbRecord>): (r: seq<string>)
    ensures |r| == |rows|
    ensures forall k :: 0 <= k < |rows| ==> r[k] == rows[k].level
  {
    if rows == [] then [] else Levels(rows[..|rows| - 1]) + [rows[|rows| - 1].level]
  }

  function LevelRows(rs: seq<PbRecord>): (r: seq<Row>)
    ensures |r| == |rs|
    ensures forall k :: 0 <= k < |rs| ==> r[k] == LevelRow(rs[k])
  {
    seq(|rs|, k requires 0 <= k < |rs| => LevelRow(rs[k]))
  }

  /** The rows `worldrecord` lists for a code: one per stored level name
      (case-sensitive, so "a" and "A" are two levels), each the first of
      its level among the first twenty records, in that order. With the
      cursor sorted by time, that is each level's fastest among them. */
  lemma WorldRecordsFirstPerLevel(rows: seq<PbRecord>)
    ensures var top := Take(rows, 20); var firsts := FirstRows(top, Levels(top));
      && |firsts| == |Dedupe(Levels(top))|
      && (forall k :: 0 <= k < |firsts| ==> (firsts[k] == top[FirstIndex(Levels(top), Dedupe(Levels(top))[k])]
          && firsts[k].level == Dedupe(Levels(top))[k]))
      && (forall i, j :: 0 <= i < j < |firsts| ==> firsts[i].level != firsts[j].level)
      && (forall k :: 0 <= k < |top| ==> top[k].level in Dedupe(Levels(top)))
  {
    var top := Take(rows, 20);
    FirstsAreFirstRecords(top);
    FirstsDistinctLevels(top);
    EveryLevelListed(top);
  }

  /** The k-th row kept is the first record of the k-th level. */
  lemma FirstsAreFirstRecords(top: seq<PbRecord>)
    ensures var firsts := FirstRows(top, Levels(top));
      && |firsts| == |Dedupe(Levels(top))|
      && forall k :: 0 <= k < |firsts| ==> (firsts[k] == top[FirstIndex(Levels(top), Dedupe(Levels(top))[k])]
        && firsts[k].level == Dedupe(Levels(top))[k])
  {
    var keys := Levels(top);
    FirstRowsAreFirst(top, keys);
    var firsts := FirstRows(top, keys);
    forall k | 0 <= k < |firsts|
      ensures firsts[k].level == Dedupe(keys)[k]
    {
      assert Dedupe(keys)[k] in keys;
    }
  }

  /** No level is listed twice. */
  lemma FirstsDistinctLevels(top: seq<PbRecord>)
    ensures var firsts := FirstRows(top, Levels(top));
      forall i, j :: 0 <= i < j < |firsts| ==> firsts[i].level != firsts[j].level
  {
    FirstsAreFirstRecords(top);
    DedupeOrdered(Levels(top));
  }

  /** Every level among the records is listed. */
  lemma EveryLevelListed(top: seq<PbRecord>)
    ensures forall k :: 0 <= k < |top| ==> top[k].level in Dedupe(Levels(top))
  {
    var keys := Levels(top);
    forall k | 0 <= k < |top|
      ensures top[k].level in Dedupe(keys)
    {
      assert keys[k] == top[k].level;
    }
  }

  lemma LevelRowsAppend(rs: seq<PbRecord>, e: PbRecord)
    ensures LevelRows(rs + [e]) == LevelRows(rs) + [LevelRow(e)]
  {
    assert LevelRows(rs + [e]) == LevelRows(rs) + [LevelRow(e)];
  }

  /** One more record: kept exactly when its level is new. */
  lemma FirstRowsStep(top: seq<PbRecord>, k: nat)
    requires k < |top|
    ensures FirstRows(top[..k + 1], Levels(top[..k + 1]))
      == FirstRows(top[..k], Levels(top[..k])) + (if top[k].level in Levels(top[..k]) then [] else [top[k]])
  {
    assert top[..k + 1][..k] == top[..k];
    assert Levels(top[..k + 1])[..k] == Levels(top[..k]);
  }

  /** The `level_checker` loop over the first twenty records. */
  method FirstOfEachLevel(top: seq<PbRecord>) returns (rows: seq<Row>)
    ensures rows == LevelRows(FirstRows(top, Levels(top)))
  {
    var levelChecker: set<string> := {};
    rows := [];
    var k := 0;
    while k < |top|
      invariant k <= |top|
      invariant forall x :: x in levelChecker <==> x in Levels(top[..k])
      invariant rows == LevelRows(FirstRows(top[..k], Levels(top[..k])))
    {
      FirstRowsStep(top, k);
      assert top[..k + 1][..k] == top[..k];
      assert Levels(top[..k + 1]) == Levels(top[..k]) + [top[k].level];
      var e := top[k];
      if e.level !in levelChecker {
        levelChecker := levelChecker + {e.level};
        LevelRowsAppend(FirstRows(top[..k], Levels(top[..k])), e);
        rows := rows + [LevelRow(e)];
      }
      k := k + 1;
    }
    assert top[..k] == top;
  }

  function WorldRecordsTitle(code: string): string
  {
    "CODE: " + code + " - VERIFIED WORLD RECORDS:\n"
  }

  function WorldRecordTitle(code: string, level: string): string
  {
    "CODE: " + code + " LEVEL " + level + " - VERIFIED WORLD RECORD:\n"
  }

  function NoWorldRecord(code: string, level: string): string
  {
    "No world record for " + code + (if level != "" then " level " + level else "") + "!"
  }

  /** `worldrecord(ctx, map_code, level="")`. With no level, `rows` are
      the verified documents of the code by record time; with a level,
      those of that exact level. */
  method Worldrecord(mapCode: string, level: string, rows: seq<PbRecord>) returns (query: Query, out: Post)
    ensures level == "" ==> query == AllOf([Eq("code", Upper(mapCode)), EqBool("verified", true)])
    ensures level != "" ==> query == AllOf([Eq("code", Upper(mapCode)), Eq("level", level), EqBool("verified", true)])
    ensures out.Said? <==> rows == []
    ensures out.Said? ==> out.text == NoWorldRecord(Upper(mapCode), level)
    ensures out.Posted? && level == "" ==> out == Posted(WorldRecordsTitle(Upper(mapCode)),
      Table(LEVEL_HEADER, LevelRows(FirstRows(Take(rows, 20), Levels(Take(rows, 20))))), "")
    ensures out.Posted? && level != "" ==> out == Posted(WorldRecordTitle(Upper(mapCode), level),
      Table(RECORD_HEADER, [Row(None, rows[0].record, rows[0].name, Mark(rows[0]))]), rows[0].url)
  {
    var code := Upper(mapCode);
    var post := false;
    var url := "";
    var title: string;
    var table: Table;
    if level == "" {
      query := AllOf([Eq("code", code), EqBool("verified", true)]);
      title := WorldRecordsTitle(code);
      var top := Take(rows, 20);
      var shown := FirstOfEachLevel(top);
      FirstRowsCount(top, Levels(top));
      post := shown != [];
      table := Table(LEVEL_HEADER, shown);
    } else {
      query := AllOf([Eq("code", code), Eq("level", level), EqBool("verified", true)]);
      title := WorldRecordTitle(code, level);
      table := Table([], []);
      var top := Take(rows, 1);
      var k := 0;
      while k < |top|
        invariant k <= |top|
        invariant post <==> k > 0
        invariant k > 0 ==> (url == rows[0].url
          && table == Table(RECORD_HEADER, [Row(None, rows[0].record, rows[0].name, Mark(rows[0]))]))
      {
        post := true;
        table := Table(RECORD_HEADER, [Row(None, top[k].record, top[k].name, Mark(top[k]))]);
        url := top[k].url;
        k := k + 1;
      }
    }
    if post {
      out := Posted(title, table, url);
    } else {
      out := Said(NoWorldRecord(code, level));
    }
  }
}
