/** The newer personal-best views, cogs/view_personal_best.py: `pb`, which
    groups a user's records by map code and pages the groups three at a
    time, splitting a group whose text is over 1024 characters in two;
    `scoreboard` and `leaderboard` through `boards`; `worldrecord`, the
    first record of every level; and `levels`. */
module PersonalBestViews {
  import opened Common
  import opened Text
  import opened Chat
  import opened Constants
  import opened PbUtils
  import PB = PersonalBestSubmission

  /** `cog_check`: the record channel, or a direct message. */
  function CogCheck(channel: int, inGuild: bool, cfg: BotConfig): (r: Option<bool>)
    ensures r.Some? <==> channel == cfg.recordChannel || !inGuild
    ensures r.Some? ==> r.value
  {
    if channel == cfg.recordChannel || !inGuild then Some(true) else None
  }

  /** `"".join(parts)` of two lists is the join of each. */
  lemma {:induction false} ConcatAppend(a: seq<string>, b: seq<string>)
    ensures Concat(a + b) == Concat(a) + Concat(b)
    decreases |a|
  {
    if a == [] {
      assert a + b == b;
    } else {
      assert (a + b)[1..] == a[1..] + b;
      ConcatAppend(a[1..], b);
    }
  }

  // ----- pb: grouping -----

  const RULE := "\U{2501}\U{2501}\U{2501}\U{2501}\U{2501}\U{2501}\U{2501}\U{2501}\U{2501}\U{2501}\U{2501}\U{2501}"

  /** The text one record adds to its map's group; `show` is
      `display_record`. */
  function PbLine(e: PbRecord, show: real -> string): string
  {
    "> **Level: " + e.level + "**\n> Record: " + show(e.record) + "\n> Verified: "
    + (if e.verified then VERIFIED_EMOJI else NOT_VERIFIED_EMOJI) + "\n" + RULE + "\n"
  }

  /** The heading of a map's group: its pretty name and creator from the
      map document, or placeholders when there is none; None stands for
      the KeyError of a stored name that `pretty` (PRETTY_NAMES) lacks. */
  function TitleOf(code: string, mapData: map<string, MapRecord>, pretty: map<string, string>): Option<string>
  {
    if code in mapData && mapData[code].mapName !in pretty then None
    else
      var (mapName, creator) :=
        if code in mapData then (pretty[mapData[code].mapName], mapData[code].creator)
        else ("Needs Map", "Needs Author");
      Some(code + " - " + mapName + " by " + creator + "\n")
  }

  predicate AllTitled(rows: seq<PbRecord>, mapData: map<string, MapRecord>, pretty: map<string, string>)
  {
    forall k :: 0 <= k < |rows| ==> TitleOf(rows[k].code, mapData, pretty).Some?
  }

  lemma AllTitledExtend(rows: seq<PbRecord>, k: nat, mapData: map<string, MapRecord>, pretty: map<string, string>)
    requires k < |rows| && AllTitled(rows[..k], mapData, pretty) && TitleOf(rows[k].code, mapData, pretty).Some?
    ensures AllTitled(rows[..k + 1], mapData, pretty)
  {
    forall j | 0 <= j < k + 1 ensures TitleOf(rows[j].code, mapData, pretty).Some? {
      if j < k { assert rows[..k][j] == rows[j]; }
    }
  }

  /** One entry of `embed_dict`: a code, its heading and its lines. */
  datatype Group = Group(code: string, title: string, lines: seq<string>)

  function Codes(gs: seq<Group>): (r: seq<string>)
    ensures |r| == |gs| && forall i :: 0 <= i < |gs| ==> r[i] == gs[i].code
  {
    seq(|gs|, i requires 0 <= i < |gs| => gs[i].code)
  }

  function RowCodes(rows: seq<PbRecord>): (r: seq<string>)
    ensures |r| == |rows| && forall i :: 0 <= i < |rows| ==> r[i] == rows[i].code
  {
    seq(|rows|, i requires 0 <= i < |rows| => rows[i].code)
  }

  /** `embed_dict.get(code)`: the position of the code's group, or |gs|. */
  function CodeIndex(gs: seq<Group>, code: string): (i: nat)
    ensures i <= |gs|
    ensures i < |gs| ==> gs[i].code == code
    ensures forall j :: 0 <= j < i ==> gs[j].code != code
  {
    if gs == [] then 0
    else if gs[0].code == code then 0
    else 1 + CodeIndex(gs[1..], code)
  }

  /** Add one record's line to its code's group, opening the group with
      `title` when the code is new. */
  function AddLine(gs: seq<Group>, code: string, title: string, line: string): seq<Group>
  {
    var i := CodeIndex(gs, code);
    if i < |gs| then gs[i := gs[i].(lines := gs[i].lines + [line])]
    else gs + [Group(code, title, [line])]
  }

  /** `embed_dict` after the whole cursor. */
  function Grouped(rows: seq<PbRecord>, mapData: map<string, MapRecord>, pretty: map<string, string>, show: real -> string): (gs: seq<Group>)
    requires AllTitled(rows, mapData, pretty)
    ensures gs == [] <==> rows == []
  {
    if rows == [] then []
    else
      var n := |rows| - 1;
      assert AllTitled(rows[..n], mapData, pretty) by {
        forall k | 0 <= k < n ensures TitleOf(rows[..n][k].code, mapData, pretty).Some? {
          assert rows[..n][k] == rows[k];
        }
      }
      AddLine(Grouped(rows[..n], mapData, pretty, show), rows[n].code, TitleOf(rows[n].code, mapData, pretty).value,
              PbLine(rows[n], show))
  }

  /** The lines of the rows with code `code`, in row order. */
  function LinesWith(rows: seq<PbRecord>, code: string, show: real -> string): seq<string>
  {
    if rows == [] then []
    else
      var n := |rows| - 1;
      LinesWith(rows[..n], code, show) + (if rows[n].code == code then [PbLine(rows[n], show)] else [])
  }

  lemma {:induction false} LinesWithAbsent(rows: seq<PbRecord>, code: string, show: real -> string)
    requires code !in RowCodes(rows)
    ensures LinesWith(rows, code, show) == []
    decreases |rows|
  {
    if rows != [] {
      var n := |rows| - 1;
      assert RowCodes(rows[..n]) == RowCodes(rows)[..n];
      LinesWithAbsent(rows[..n], code, show);
    }
  }

  /** Adding a line keeps the codes, or appends the new one. */
  lemma AddLineCodes(gs: seq<Group>, code: string, title: string, line: string)
    ensures Codes(AddLine(gs, code, title, line)) == if code in Codes(gs) then Codes(gs) else Codes(gs) + [code]
  {
    var i := CodeIndex(gs, code);
    if i < |gs| {
      assert Codes(gs)[i] == code;
      assert Codes(AddLine(gs, code, title, line)) == Codes(gs);
    } else {
      assert code !in Codes(gs);
      assert Codes(AddLine(gs, code, title, line)) == Codes(gs) + [code];
    }
  }

  /** With distinct codes, adding a line extends exactly the group of its
      code, or opens a new one at the end. */
  lemma AddLineGroups(gs: seq<Group>, code: string, title: string, line: string)
    requires forall i, j :: 0 <= i < j < |gs| ==> gs[i].code != gs[j].code
    ensures var r := AddLine(gs, code, title, line);
      && |r| >= |gs|
      && (forall j :: 0 <= j < |gs| ==> (r[j].code == gs[j].code && r[j].title == gs[j].title
          && r[j].lines == gs[j].lines + (if gs[j].code == code then [line] else [])))
      && (|r| > |gs| ==> r[|gs|] == Group(code, title, [line]))
  {
  }

  /** `LinesWith` grows by the last row's line exactly for its code. */
  lemma LinesWithLast(rows: seq<PbRecord>, code: string, show: real -> string)
    requires rows != []
    ensures LinesWith(rows, code, show) == LinesWith(rows[..|rows| - 1], code, show)
      + (if rows[|rows| - 1].code == code then [PbLine(rows[|rows| - 1], show)] else [])
  {
  }

  /** The step of GroupedCover for the group at position `i`, once the
      last row's line is added. */
  lemma AddLineCover(rows: seq<PbRecord>, g: seq<Group>, t: string, mapData: map<string, MapRecord>,
                     pretty: map<string, string>, show: real -> string, i: nat)
    requires rows != [] && TitleOf(rows[|rows| - 1].code, mapData, pretty) == Some(t)
    requires forall a, b :: 0 <= a < b < |g| ==> g[a].code != g[b].code
    requires rows[|rows| - 1].code in Codes(g) || rows[|rows| - 1].code !in RowCodes(rows[..|rows| - 1])
    requires forall j :: 0 <= j < |g| ==>
      (g[j].lines == LinesWith(rows[..|rows| - 1], g[j].code, show) && TitleOf(g[j].code, mapData, pretty) == Some(g[j].title))
    requires i < |AddLine(g, rows[|rows| - 1].code, t, PbLine(rows[|rows| - 1], show))|
    ensures var r := AddLine(g, rows[|rows| - 1].code, t, PbLine(rows[|rows| - 1], show));
      r[i].lines == LinesWith(rows, r[i].code, show) && TitleOf(r[i].code, mapData, pretty) == Some(r[i].title)
  {
    var n := |rows| - 1;
    var c := rows[n].code;
    AddLineGroups(g, c, t, PbLine(rows[n], show));
    var r := AddLine(g, c, t, PbLine(rows[n], show));
    LinesWithLast(rows, r[i].code, show);
    if i == |g| {
      assert c !in Codes(g);
      LinesWithAbsent(rows[..n], c, show);
    }
  }

  /** Every record lands in exactly one group: one group per code, in the
      order the codes first appear, each holding the lines of that code's
      records in cursor order under the heading of that code. */
  lemma {:induction false} GroupedCover(rows: seq<PbRecord>, mapData: map<string, MapRecord>, pretty: map<string, string>, show: real -> string)
    requires AllTitled(rows, mapData, pretty)
    ensures Codes(Grouped(rows, mapData, pretty, show)) == Dedupe(RowCodes(rows))
    ensures forall i :: 0 <= i < |Grouped(rows, mapData, pretty, show)| ==>
      (Grouped(rows, mapData, pretty, show)[i].lines == LinesWith(rows, Grouped(rows, mapData, pretty, show)[i].code, show)
      && TitleOf(Grouped(rows, mapData, pretty, show)[i].code, mapData, pretty) == Some(Grouped(rows, mapData, pretty, show)[i].title))
    decreases |rows|
  {
    if rows != [] {
      var n := |rows| - 1;
      var p := rows[..n];
      assert AllTitled(p, mapData, pretty) by {
        forall k | 0 <= k < n ensures TitleOf(p[k].code, mapData, pretty).Some? {
          assert p[k] == rows[k];
        }
      }
      GroupedCover(p, mapData, pretty, show);
      var g := Grouped(p, mapData, pretty, show);
      var c := rows[n].code;
      var t := TitleOf(c, mapData, pretty).value;
      var line := PbLine(rows[n], show);
      assert RowCodes(rows) == RowCodes(p) + [c];
      var r := AddLine(g, c, t, line);
      assert Grouped(rows, mapData, pretty, show) == r;
      AddLineCodes(g, c, t, line);
      DedupeOrdered(RowCodes(p));
      assert forall i, j :: 0 <= i < j < |g| ==> g[i].code != g[j].code by {
        forall i, j | 0 <= i < j < |g| ensures g[i].code != g[j].code {
          assert Codes(g)[i] == g[i].code && Codes(g)[j] == g[j].code;
        }
      }
      forall i | 0 <= i < |r|
        ensures r[i].lines == LinesWith(rows, r[i].code, show) && TitleOf(r[i].code, mapData, pretty) == Some(r[i].title)
      {
        AddLineCover(rows, g, t, mapData, pretty, show, i);
      }
    }
  }

  /** The grouping loop over the cursor. `mapData` maps a code to its map
      document; a stored map name that `pretty` lacks raises KeyError,
      reported in `missing`. */
  method GroupRecords(rows: seq<PbRecord>, mapData: map<string, MapRecord>, pretty: map<string, string>, show: real -> string)
    returns (groups: seq<Group>, missing: Option<string>)
    ensures missing.Some? <==> !AllTitled(rows, mapData, pretty)
    ensures missing.None? ==> groups == Grouped(rows, mapData, pretty, show)
  {
    groups := [];
    var cur: Option<string> := None;
    var mapName := "";
    var creator := "";
    var k := 0;
    while k < |rows|
      invariant k <= |rows|
      invariant AllTitled(rows[..k], mapData, pretty)
      invariant groups == Grouped(rows[..k], mapData, pretty, show)
      invariant k == 0 ==> cur == None
      invariant k > 0 ==> (cur == Some(rows[k - 1].code)
        && TitleOf(rows[k - 1].code, mapData, pretty) == Some(rows[k - 1].code + " - " + mapName + " by " + creator + "\n"))
    {
      var e := rows[k];
      if cur != Some(e.code) {
        cur := Some(e.code);
        if e.code in mapData {
          if mapData[e.code].mapName !in pretty {
            return groups, Some(mapData[e.code].mapName);
          }
          mapName := pretty[mapData[e.code].mapName];
          creator := mapData[e.code].creator;
        } else {
          mapName := "Needs Map";
          creator := "Needs Author";
        }
      }
      var line := PbLine(e, show);
      var title := e.code + " - " + mapName + " by " + creator + "\n";
      assert TitleOf(e.code, mapData, pretty) == Some(title);
      assert rows[..k + 1][..k] == rows[..k];
      AllTitledExtend(rows, k, mapData, pretty);
      assert Grouped(rows[..k + 1], mapData, pretty, show) == AddLine(groups, e.code, title, line);
      var i := CodeIndex(groups, e.code);
      if i == |groups| {
        groups := groups + [Group(e.code, title, [line])];
      } else {
        groups := groups[i := groups[i].(lines := groups[i].lines + [line])];
      }
      assert rows[..k + 1][..k] == rows[..k];
      k := k + 1;
    }
    assert rows[..k] == rows;
    missing := None;
  }

  // ----- pb: paging -----

  /** One embed field. */
  datatype Field = Field(name: string, value: string)

  /** The fields of one group: one, or two halves of its lines when its
      text is over 1024 characters. The source recovers the lines with
      `re.findall` of three `>` lines and the rule; that gives `g.lines`
      only when no level or record text holds a newline, which is assumed
      here. */
  function GroupFields(g: Group): seq<Field>
  {
    var n := |g.lines|;
    if |Concat(g.lines)| > 1024 then
      [Field(g.title + " (1)", Concat(g.lines[..n / 2])), Field(g.title + " (2)", Concat(g.lines[n / 2..]))]
    else [Field(g.title, Concat(g.lines))]
  }

  /** A split never loses or reorders a line: the field values joined
      give the group's text, and the halves differ by at most one line. */
  lemma GroupFieldsKeepText(g: Group)
    ensures |GroupFields(g)| == 1 ==> GroupFields(g)[0].value == Concat(g.lines)
    ensures |GroupFields(g)| == 2 ==> (GroupFields(g)[0].value + GroupFields(g)[1].value == Concat(g.lines)
      && |g.lines| / 2 <= |g.lines| - |g.lines| / 2 <= |g.lines| / 2 + 1)
    ensures |GroupFields(g)| == 2 <==> |Concat(g.lines)| > 1024
    ensures 1 <= |GroupFields(g)| <= 2
  {
    var n := |g.lines|;
    assert g.lines == g.lines[..n / 2] + g.lines[n / 2..];
    ConcatAppend(g.lines[..n / 2], g.lines[n / 2..]);
  }

  /** The fields of consecutive groups. */
  function GroupsFields(gs: seq<Group>): seq<Field>
  {
    if gs == [] then [] else GroupsFields(gs[..|gs| - 1]) + GroupFields(gs[|gs| - 1])
  }

  /** The fields of each run of groups. */
  function PagesOf(cs: seq<seq<Group>>): (pages: seq<seq<Field>>)
    ensures |pages| == |cs|
  {
    if cs == [] then [] else PagesOf(cs[..|cs| - 1]) + [GroupsFields(cs[|cs| - 1])]
  }

  /** Each embed holds exactly the fields of its run of groups. */
  lemma {:induction false} PagesOfEach(cs: seq<seq<Group>>)
    ensures forall k :: 0 <= k < |cs| ==> PagesOf(cs)[k] == GroupsFields(cs[k])
  {
    if cs != [] {
      PagesOfEach(cs[..|cs| - 1]);
    }
  }

  /** The embeds of `pb`: the groups three to an embed. */
  function FieldPages(gs: seq<Group>): seq<seq<Field>>
  {
    PagesOf(Chunks(gs, 3))
  }

  /** ceil(groups / 3) embeds, each made of one to three whole groups, the
      groups in order across the embeds. */
  lemma FieldPagesCover(gs: seq<Group>)
    ensures |FieldPages(gs)| == CeilDiv(|gs|, 3)
    ensures Flatten(Chunks(gs, 3)) == gs
    ensures forall k :: 0 <= k < |FieldPages(gs)| ==> 1 <= |Chunks(gs, 3)[k]| <= 3
    ensures gs != [] ==> FieldPages(gs) != []
    ensures forall k :: 0 <= k < |FieldPages(gs)| ==> FieldPages(gs)[k] == GroupsFields(Chunks(gs, 3)[k])
  {
    ChunksCover(gs, 3);
    PagesOfEach(Chunks(gs, 3));
  }

  /** One more group in the open embed. */
  lemma GroupsFieldsAppend(cur: seq<Group>, g: Group)
    ensures GroupsFields(cur + [g]) == GroupsFields(cur) + GroupFields(g)
  {
    assert (cur + [g])[..|cur|] == cur;
  }

  /** One more closed embed. */
  lemma PagesOfAppend(done: seq<seq<Group>>, cur: seq<Group>)
    ensures PagesOf(done + [cur]) == PagesOf(done) + [GroupsFields(cur)]
  {
    assert (done + [cur])[..|done|] == done;
  }

  /** Within the open embed of the `q`-th page, `(i + 1) % 3 == 0` holds
      exactly when group `i` is its third. */
  lemma ThirdOfPage(i: nat, q: nat)
    requires 3 * q <= i < 3 * q + 3
    ensures (i + 1) % 3 == 0 <==> i + 1 == 3 * q + 3
  {
  }

  /** The `enumerate(embed_dict.values())` loop: an embed closes after
      every third group and after the last one. The ghost `done` holds the
      groups of the closed embeds, `cur` those of the open one. */
  method BuildPages(gs: seq<Group>) returns (pages: seq<seq<Field>>)
    ensures pages == FieldPages(gs)
  {
    pages := [];
    var embed: seq<Field> := [];
    ghost var done: seq<seq<Group>> := [];
    ghost var cur: seq<Group> := [];
    ghost var base: nat := 0;
    var i: nat := 0;
    PagingStarts(gs, 3);
    while i < |gs|
      invariant Paging(gs, 3, i, base, done, cur)
      invariant pages == PagesOf(done) && embed == GroupsFields(cur)
    {
      GroupsFieldsAppend(cur, gs[i]);
      ThirdOfPage(i, |done|);
      embed := embed + GroupFields(gs[i]);
      if (i + 1) % 3 == 0 || i + 1 == |gs| {
        PagingCloses(gs, 3, i, base, done, cur);
        PagesOfAppend(done, cur + [gs[i]]);
        pages := pages + [embed];
        done := done + [cur + [gs[i]]];
        embed := [];
        cur := [];
        if i + 1 < |gs| {
          base := i + 1;
        }
      } else {
        PagingKeeps(gs, 3, i, base, done, cur);
        cur := cur + [gs[i]];
      }
      i := i + 1;
    }
  }

  /** What `pb` sends. */
  datatype PbView = Paged(title: Option<string>, pages: seq<seq<Field>>) | Said(text: string) | Raised(error: string)

  /** The filter of `pb`: the author's records, by id or by name, or an
      escaped case-insensitive pattern on the given name. */
  function PbQuery(name: Option<string>, author: Member): (q: Query)
    ensures name.Some? ==> q.Regex? && RegexUnescape(q.pattern) == name.value && q.ignoreCase
  {
    if name.Some? then (EscapeRoundTrip(name.value); Regex("name", RegexEscape(name.value), true))
    else AnyOf([EqInt("posted_by", author.id), Eq("name", author.name)])
  }

  /** Python's f"{name}" of an optional name. */
  function NameText(name: Option<string>): string
  {
    if name.Some? then name.value else "None"
  }

  /** `pb(ctx, name=None)`. `rows` are the matching records sorted by code
      and level; `pretty` is PRETTY_NAMES; `show` renders a record. */
  method Pb(name: Option<string>, author: Member, rows: seq<PbRecord>, mapData: map<string, MapRecord>,
            pretty: map<string, string>, show: real -> string)
    returns (query: Query, out: PbView)
    ensures query == PbQuery(name, author)
    ensures out.Raised? <==> !AllTitled(rows, mapData, pretty)
    ensures AllTitled(rows, mapData, pretty) && rows == [] ==> out == PbView.Said("Nothing exists for " + NameText(name) + "!")
    ensures AllTitled(rows, mapData, pretty) && rows != [] ==> out.Paged?
    ensures out.Paged? ==> (AllTitled(rows, mapData, pretty) && rows != [] && out.title == name
      && out.pages == FieldPages(Grouped(rows, mapData, pretty, show)))
  {
    query := PbQuery(name, author);
    var groups, missing := GroupRecords(rows, mapData, pretty, show);
    if missing.Some? {
      return query, Raised("KeyError: " + missing.value);
    }
    var pages := BuildPages(groups);
    FieldPagesCover(groups);
    if pages != [] {
      out := Paged(name, pages);
    } else {
      out := PbView.Said("Nothing exists for " + NameText(name) + "!");
    }
  }

  // ----- scoreboard / leaderboard -----

  /** `"^" + re.escape(level) + "$"`: the level exactly, ignoring case. */
  function ExactLevel(level: string): (p: string)
    ensures |p| >= 2 && p[0] == '^' && p[|p| - 1] == '$' && RegexUnescape(p[1..|p| - 1]) == level
  {
    EscapeRoundTrip(level);
    var p := "^" + RegexEscape(level) + "$";
    assert p[1..|p| - 1] == RegexEscape(level);
    p
  }

  /** `scoreboard(ctx, map_code, *, level)`; `entries` are the matching
      records by record time. */
  method Scoreboard(mapCode: string, level: string, entries: seq<PbRecord>) returns (query: Query, out: Board)
    ensures query == AllOf([Eq("code", Upper(mapCode)), Regex("level", ExactLevel(level), true)])
    ensures out.Reply? <==> entries == []
    ensures out.Reply? ==> out.text == "No scoreboard for " + Upper(mapCode) + " level " + Upper(level) + "!"
    ensures out.Embed? ==> (out.title == Upper(mapCode) + " - LEVEL " + Upper(level)
        + " - TOP 10 VERIFIED/UNVERIFIED RECORDS:\n"
      && out.fields == Numbered(Take(entries, 10)))
  {
    var code := Upper(mapCode);
    query := AllOf([Eq("code", code), Regex("level", ExactLevel(level), true)]);
    out := Boards(code, level, code + " - LEVEL " + Upper(level) + " - TOP 10 VERIFIED/UNVERIFIED RECORDS:\n", entries);
  }

  /** `leaderboard(ctx, map_code, *, level)`: as `scoreboard`, verified
      records only. */
  method Leaderboard(mapCode: string, level: string, entries: seq<PbRecord>) returns (query: Query, out: Board)
    ensures query == AllOf([Eq("code", Upper(mapCode)), Regex("level", ExactLevel(level), true),
                            EqBool("verified", true)])
    ensures out.Reply? <==> entries == []
    ensures out.Reply? ==> out.text == "No scoreboard for " + Upper(mapCode) + " level " + Upper(level) + "!"
    ensures out.Embed? ==> (out.title == Upper(mapCode) + " - LEVEL " + Upper(level) + " - TOP 10 VERIFIED RECORDS:\n"
      && out.fields == Numbered(Take(entries, 10)))
  {
    var code := Upper(mapCode);
    query := AllOf([Eq("code", code), Regex("level", ExactLevel(level), true), EqBool("verified", true)]);
    UpperOfUpperCased(Upper(level));
    UpperIsUpperCased(level);
    out := Boards(code, Upper(level), code + " - LEVEL " + Upper(level) + " - TOP 10 VERIFIED RECORDS:\n", entries);
  }

  // ----- worldrecord -----

  datatype RecordField = RecordField(name: string, record: real)

  function LevelFields(rs: seq<PbRecord>): (fs: seq<RecordField>)
    ensures |fs| == |rs|
    ensures forall k :: 0 <= k < |rs| ==> fs[k] == RecordField("Level " + Upper(rs[k].level) + " - " + rs[k].name, rs[k].record)
  {
    seq(|rs|, k requires 0 <= k < |rs| => RecordField("Level " + Upper(rs[k].level) + " - " + rs[k].name, rs[k].record))
  }

  /** The records `worldrecord` lists for a code: one per upper-cased
      level, in the order the levels first appear, each the first record
      of its level; with the cursor sorted by time within a level, that is
      the fastest. */
  lemma WorldRecordIsFirstPerLevel(rows: seq<PbRecord>)
    ensures var keys := PB.UpperLevels(rows); var firsts := FirstRows(rows, keys);
      && |firsts| == |Dedupe(keys)|
      && (forall k :: 0 <= k < |firsts| ==> (firsts[k] == rows[FirstIndex(keys, Dedupe(keys)[k])]
          && Upper(firsts[k].level) == Dedupe(keys)[k]))
      && (forall i, j :: 0 <= i < j < |firsts| ==> Upper(firsts[i].level) != Upper(firsts[j].level))
      && (forall k :: 0 <= k < |rows| ==> keys[k] in Dedupe(keys))
  {
    var keys := PB.UpperLevels(rows);
    FirstRowsAreFirst(rows, keys);
    DedupeOrdered(keys);
    var firsts := FirstRows(rows, keys);
    forall k | 0 <= k < |firsts|
      ensures Upper(firsts[k].level) == Dedupe(keys)[k]
    {
      assert Dedupe(keys)[k] in keys;
    }
  }

  /** When the cursor is sorted by time within each level, the listed
      record of a level is at least as fast as every record of it. */
  lemma WorldRecordIsFastest(rows: seq<PbRecord>, k: nat, j: nat)
    requires forall a, b :: (0 <= a < b < |rows| && Upper(rows[a].level) == Upper(rows[b].level)
      ==> rows[a].record <= rows[b].record)
    requires k < |Dedupe(PB.UpperLevels(rows))| && j < |rows|
    requires Upper(rows[j].level) == Dedupe(PB.UpperLevels(rows))[k]
    ensures k < |FirstRows(rows, PB.UpperLevels(rows))|
    ensures FirstRows(rows, PB.UpperLevels(rows))[k].record <= rows[j].record
  {
    var keys := PB.UpperLevels(rows);
    FirstRowsAreFirst(rows, keys);
    assert Dedupe(keys)[k] in keys;
    var f := FirstIndex(keys, Dedupe(keys)[k]);
  }

  datatype WorldRecordView = Shown(url: string, title: string, fields: seq<RecordField>) | Said(text: string)

  /** `worldrecord(ctx, map_code, level="")`. With no level, `rows` are
      the verified records of the code sorted by level and time; with a
      level, the verified records of that exact level by time. */
  method Worldrecord(mapCode: string, level: string, rows: seq<PbRecord>) returns (query: Query, out: WorldRecordView)
    ensures level == "" ==> query == AllOf([Eq("code", Upper(mapCode)), EqBool("verified", true)])
    ensures level != "" ==> query == AllOf([Eq("code", Upper(mapCode)), Regex("level", ExactLevel(level), true),
                                            EqBool("verified", true)])
    ensures out.Said? <==> rows == []
    ensures out.Said? ==> out.text == NoWorldRecord(Upper(mapCode), level)
    ensures out.Shown? && level == "" ==> (out.url == "" && out.title == WorldRecordsTitle(Upper(mapCode))
      && out.fields == LevelFields(FirstRows(rows, PB.UpperLevels(rows))))
    ensures out.Shown? && level != "" ==> (out.url == rows[0].url
      && out.title == WorldRecordTitle(Upper(mapCode), rows[0].level)
      && out.fields == [RecordField(rows[0].name, rows[0].record)])
  {
    var code := Upper(mapCode);
    var exists_ := false;
    var url := "";
    var title := "";
    var fields: seq<RecordField> := [];
    if level == "" {
      query := AllOf([Eq("code", code), EqBool("verified", true)]);
      title := WorldRecordsTitle(code);
      fields, exists_ := FirstOfEachLevel(rows);
    } else {
      query := AllOf([Eq("code", code), Regex("level", ExactLevel(level), true), EqBool("verified", true)]);
      var top := Take(rows, 1);
      var k := 0;
      while k < |top|
        invariant k <= |top|
        invariant exists_ <==> k > 0
        invariant k > 0 ==> (url == rows[0].url && title == WorldRecordTitle(code, rows[0].level)
          && fields == [RecordField(rows[0].name, rows[0].record)])
      {
        title := WorldRecordTitle(code, top[k].level);
        exists_ := true;
        fields := [RecordField(top[k].name, top[k].record)];
        url := top[k].url;
        k := k + 1;
      }
    }
    if exists_ {
      out := Shown(url, title, fields);
    } else {
      out := WorldRecordView.Said(NoWorldRecord(code, level));
    }
  }

  /** The title of `worldrecord` for a whole code. */
  function WorldRecordsTitle(code: string): string
  {
    code + " - VERIFIED WORLD RECORDS:\n"
  }

  /** The title of `worldrecord` for one level, upper-cased. */
  function WorldRecordTitle(code: string, level: string): string
  {
    code + " - LEVEL " + Upper(level) + " - VERIFIED WORLD RECORD:\n"
  }

  /** What `worldrecord` says when nothing matches. */
  function NoWorldRecord(code: string, level: string): string
  {
    "No world record for " + code + (if level != "" then " level " + Upper(level) else "") + "!"
  }

  /** The state of the loop of `worldrecord` after `k` records: `seen`
      holds the upper-cased levels met so far, and `fields` a field for
      the first record of each. */
  ghost predicate Scanned(rows: seq<PbRecord>, k: nat, seen: seq<string>, fields: seq<RecordField>)
  {
    && k <= |rows|
    && (forall x :: x in seen <==> x in PB.UpperLevels(rows[..k]))
    && fields == LevelFields(FirstRows(rows[..k], PB.UpperLevels(rows[..k])))
  }

  /** The upper-cased levels of one more record. */
  lemma UpperLevelsStep(rows: seq<PbRecord>, k: nat)
    requires k < |rows|
    ensures PB.UpperLevels(rows[..k + 1]) == PB.UpperLevels(rows[..k]) + [Upper(rows[k].level)]
  {
    PrefixSnoc(rows, k);
  }

  /** One more record whose upper-cased level is new: its field is added. */
  lemma NewLevelStep(rows: seq<PbRecord>, k: nat, seen: seq<string>, fields: seq<RecordField>)
    requires k < |rows| && Scanned(rows, k, seen, fields) && Upper(rows[k].level) !in seen
    ensures Scanned(rows, k + 1, seen + [Upper(rows[k].level)],
      fields + [RecordField("Level " + Upper(rows[k].level) + " - " + rows[k].name, rows[k].record)])
  {
    UpperLevelsStep(rows, k);
    PrefixSnoc(rows, k);
    FirstRowsSnoc(rows[..k], PB.UpperLevels(rows[..k]), rows[k], Upper(rows[k].level));
    var p := FirstRows(rows[..k], PB.UpperLevels(rows[..k]));
    assert LevelFields(p + [rows[k]]) == LevelFields(p)
      + [RecordField("Level " + Upper(rows[k].level) + " - " + rows[k].name, rows[k].record)];
  }

  /** One more record of a level already met: nothing is added. */
  lemma SeenLevelStep(rows: seq<PbRecord>, k: nat, seen: seq<string>, fields: seq<RecordField>)
    requires k < |rows| && Scanned(rows, k, seen, fields) && Upper(rows[k].level) in seen
    ensures Scanned(rows, k + 1, seen, fields)
  {
    var keys := PB.UpperLevels(rows[..k]);
    var key := Upper(rows[k].level);
    assert key in keys;
    UpperLevelsStep(rows, k);
    PrefixSnoc(rows, k);
    FirstRowsSnoc(rows[..k], keys, rows[k], key);
    assert FirstRows(rows[..k + 1], PB.UpperLevels(rows[..k + 1])) == FirstRows(rows[..k], keys);
    forall x
      ensures x in seen <==> x in PB.UpperLevels(rows[..k + 1])
    {
      assert x in keys + [key] <==> x in keys || x == key;
    }
  }

  /** The loop of `worldrecord` over a code's records: a field for the
      first record of each upper-cased level, and whether any record was
      seen. */
  method FirstOfEachLevel(rows: seq<PbRecord>) returns (fields: seq<RecordField>, found: bool)
    ensures fields == LevelFields(FirstRows(rows, PB.UpperLevels(rows)))
    ensures found <==> rows != []
  {
    fields, found := [], false;
    var seen: seq<string> := [];
    var k: nat := 0;
    assert rows[..0] == [];
    while k < |rows|
      invariant Scanned(rows, k, seen, fields)
      invariant found <==> k > 0
    {
      var name := Upper(rows[k].level);
      if name !in seen {
        NewLevelStep(rows, k, seen, fields);
        seen := seen + [name];
        fields := fields + [RecordField("Level " + name + " - " + rows[k].name, rows[k].record)];
      } else {
        SeenLevelStep(rows, k, seen, fields);
      }
      found := true;
      k := k + 1;
    }
    assert rows[..k] == rows;
  }

  // ----- levels -----

  datatype LevelsView = Listed(title: string, names: string) | Nothing(text: string)

  /** `levels(ctx, map_code)`: the distinct upper-cased level names among
      the first 30 records of the code. */
  method Levels(mapCode: string, rows: seq<PbRecord>) returns (query: Query, names: seq<string>, out: LevelsView)
    ensures query == Eq("code", Upper(mapCode))
    ensures names == Dedupe(PB.UpperLevels(Take(rows, 30)))
    ensures out.Nothing? <==> rows == []
    ensures out.Nothing? ==> out.text == "No level names found for " + Upper(mapCode) + "!"
    ensures out.Listed? ==> out.title == Upper(mapCode) + " - LEVEL NAMES:\n" && out.names == Join(", ", names)
  {
    var code := Upper(mapCode);
    query := Eq("code", code);
    names := PB.CollectLevels(Take(rows, 30));
    if rows != [] {
      assert PB.UpperLevels(Take(rows, 30))[0] in Dedupe(PB.UpperLevels(Take(rows, 30)));
    }
    if names != [] {
      out := Listed(code + " - LEVEL NAMES:\n", Join(", ", names));
    } else {
      out := Nothing("No level names found for " + code + "!");
    }
  }
}
