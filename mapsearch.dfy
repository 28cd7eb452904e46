/** The map-search cog of cogs/mapsearch.py: the reaction pager that wraps
    around at both ends, the slicing of a result table into pages of
    PT_PAGE_SIZE rows, and the listing commands built on them. */
module MapSearch {
  import opened Common
  import opened Text
  import opened Chat
  import opened Constants

  /** `cog_check`: True in the map channel; otherwise the coroutine falls
      off its end and returns None. */
  function CogCheck(channel: int, cfg: BotConfig): (r: Option<bool>)
    ensures r.Some? <==> channel == cfg.mapChannel
    ensures r.Some? ==> r.value
  {
    if channel == cfg.mapChannel then Some(true) else None
  }

  // ----- the pager -----

  /** The `check` of `pages`: a left or right arrow by the author, on any message. */
  function PagerFilter(author: int): Filter {
    Filter(ARROWS, author, None)
  }

  /** The two emoji the pager listens for. */
  const ARROWS: set<string> := {LEFT_REACTION_EMOJI, RIGHT_REACTION_EMOJI}

  /** The text the pager shows for page `cur`. */
  function PageText(title: string, cur: nat, total: nat, contents: seq<string>): string
    requires 1 <= cur <= |contents|
  {
    title + "\n```Page " + NatToString(cur) + "/" + NatToString(total) + ":\n"
      + contents[cur - 1] + "```"
  }

  /** The branch chain of the pager loop: the page after a reaction, or
      None when no branch edits the message. On a page in range, each
      arrow gives a page in range. */
  function Turn(cur: int, total: int, emoji: string): (r: Option<int>)
    ensures 1 <= cur <= total && emoji in ARROWS ==> r.Some? && 1 <= r.value <= total
  {
    if emoji == RIGHT_REACTION_EMOJI && cur != total then Some(cur + 1)
    else if emoji == LEFT_REACTION_EMOJI && cur > 1 then Some(cur - 1)
    else if cur == total then Some(1)
    else if cur == 1 then Some(total)
    else None
  }

  /** The arrows move around a cycle of `total` pages: right is the next
      page modulo `total`, left the previous one. */
  lemma TurnIsCyclic(cur: int, total: int)
    requires 1 <= cur <= total
    ensures Turn(cur, total, RIGHT_REACTION_EMOJI) == Some(cur % total + 1)
    ensures Turn(cur, total, LEFT_REACTION_EMOJI) == Some((cur - 2) % total + 1)
  {
    if cur == total {
      assert cur % total == 0;
    } else {
      assert cur % total == cur;
    }
    if cur == 1 {
      assert (cur - 2) % total == total - 1;
    } else {
      assert (cur - 2) % total == cur - 2;
    }
  }

  /** What the pager loop does with the remaining events, from page `cur`:
      the page it ends on, and the edits, reaction removals and the final
      clear it performs. */
  function Run(events: seq<Event>, author: int, cur: int, total: int, title: string,
               contents: seq<string>): (r: (int, seq<Action>))
    requires 1 <= cur <= total <= |contents|
    ensures 1 <= r.0 <= total
    ensures |r.1| >= 1 && r.1[|r.1| - 1] == Cleared
    decreases |events|
  {
    var i := WaitFor(events, PagerFilter(author));
    if i == |events| || events[i].TimedOut? then (cur, [Cleared])
    else
      var e := events[i];
      var p := Turn(cur, total, e.emoji).value;
      var next := Run(events[i + 1..], author, p, total, title, contents);
      (next.0, [Edited(PageText(title, p, total, contents)), Removed(e.emoji, e.user)] + next.1)
  }

  /** `k` right arrows by the author from page `cur` move `k` pages
      forward around the cycle. */
  lemma {:induction false} RightsWrapAround(k: nat, author: int, msgId: int, cur: int, total: int,
                                            title: string, contents: seq<string>)
    requires 1 <= cur <= total <= |contents| && k <= total
    ensures Run(seq(k, _ => Reacted(RIGHT_REACTION_EMOJI, author, msgId)) + [TimedOut],
                author, cur, total, title, contents).0
         == if cur + k <= total then cur + k else cur + k - total
  {
    var ev := seq(k, _ => Reacted(RIGHT_REACTION_EMOJI, author, msgId)) + [TimedOut];
    if k == 0 {
      assert ev == [TimedOut];
    } else {
      var rest := seq(k - 1, _ => Reacted(RIGHT_REACTION_EMOJI, author, msgId)) + [TimedOut];
      assert ev[0] == Reacted(RIGHT_REACTION_EMOJI, author, msgId);
      assert Passes(PagerFilter(author), ev[0]);
      assert ev[1..] == rest;
      var p := if cur == total then 1 else cur + 1;
      assert Turn(cur, total, RIGHT_REACTION_EMOJI) == Some(p);
      RightsWrapAround(k - 1, author, msgId, p, total, title, contents);
    }
  }

  /** From page 1, `total - 1` right arrows reach the last page and one
      more wraps back to page 1. */
  lemma RightsFromFirstPage(author: int, msgId: int, total: int, title: string, contents: seq<string>)
    requires 1 <= total <= |contents|
    ensures Run(seq(total - 1, _ => Reacted(RIGHT_REACTION_EMOJI, author, msgId)) + [TimedOut],
                author, 1, total, title, contents).0 == total
    ensures Run(seq(total, _ => Reacted(RIGHT_REACTION_EMOJI, author, msgId)) + [TimedOut],
                author, 1, total, title, contents).0 == 1
  {
    RightsWrapAround(total - 1, author, msgId, 1, total, title, contents);
    RightsWrapAround(total, author, msgId, 1, total, title, contents);
  }

  /** Reactions that are not the author's arrows are skipped by the pager. */
  lemma RunSkips(e: Event, rest: seq<Event>, author: int, cur: int, total: int,
                 title: string, contents: seq<string>)
    requires 1 <= cur <= total <= |contents|
    requires e.Reacted? && !Passes(PagerFilter(author), e)
    ensures Run([e] + rest, author, cur, total, title, contents)
         == Run(rest, author, cur, total, title, contents)
  {
    var ev := [e] + rest;
    assert ev[1..] == rest;
    var i := WaitFor(rest, PagerFilter(author));
    WaitForIsFirst(ev, PagerFilter(author), 1 + i);
    if i < |rest| {
      assert ev[1 + i] == rest[i];
      assert ev[1 + i + 1..] == rest[i + 1..];
    }
  }

  /** The body of the pager loop after `wait_for` returned `reaction`:
      the branch chain that moves the page, edits the message and removes
      the author's reaction. */
  method Turnpage(message: Message, curPage: int, totalPages: int, reaction: Event,
                  title: string, contents: seq<string>) returns (page: int)
    requires 1 <= curPage <= totalPages <= |contents|
    requires reaction.Reacted?
    requires reaction.emoji in ARROWS
    modifies message
    ensures page == Turn(curPage, totalPages, reaction.emoji).value
    ensures message.content == PageText(title, page, totalPages, contents)
    ensures message.log == old(message.log)
      + [Edited(PageText(title, page, totalPages, contents)), Removed(reaction.emoji, reaction.user)]
    ensures message.reactions == old(message.reactions) - {Mark(reaction.emoji, reaction.user)}
  {
    page := curPage;
    if reaction.emoji == RIGHT_REACTION_EMOJI && page != totalPages {
      page := page + 1;
      message.Edit(PageText(title, page, totalPages, contents));
      message.RemoveReaction(reaction.emoji, reaction.user);
    } else if reaction.emoji == LEFT_REACTION_EMOJI && page > 1 {
      page := page - 1;
      message.Edit(PageText(title, page, totalPages, contents));
      message.RemoveReaction(reaction.emoji, reaction.user);
    } else {
      if page == totalPages {
        page := 1;
        message.Edit(PageText(title, page, totalPages, contents));
        message.RemoveReaction(reaction.emoji, reaction.user);
      } else if page == 1 {
        page := totalPages;
        message.Edit(PageText(title, page, totalPages, contents));
        message.RemoveReaction(reaction.emoji, reaction.user);
      }
    }
  }

  /** `pages(ctx, contents, total_pages, map_name)`: show page 1, add the
      arrows, and follow the author's arrows until a time-out, then clear
      the reactions. Returns the message the pager sent. */
  method Pages(author: int, botId: int, msgId: int, contents: seq<string>, totalPages: int,
               title: string, events: seq<Event>)
    returns (message: Message)
    requires 1 <= totalPages <= |contents|
    ensures fresh(message) && message.id == msgId
    ensures message.content
      == PageText(title, Run(events, author, 1, totalPages, title, contents).0, totalPages, contents)
    ensures message.log == [Added(LEFT_REACTION_EMOJI), Added(RIGHT_REACTION_EMOJI)]
      + Run(events, author, 1, totalPages, title, contents).1
    ensures message.reactions == {}
  {
    var curPage := 1;
    message := new Message(msgId, PageText(title, curPage, totalPages, contents));
    message.AddReaction(LEFT_REACTION_EMOJI, botId);
    message.AddReaction(RIGHT_REACTION_EMOJI, botId);
    ghost var whole := Run(events, author, 1, totalPages, title, contents);
    var pending := events;
    while true
      invariant 1 <= curPage <= totalPages
      invariant message.content == PageText(title, curPage, totalPages, contents)
      invariant Run(pending, author, curPage, totalPages, title, contents).0 == whole.0
      invariant message.log + Run(pending, author, curPage, totalPages, title, contents).1
             == [Added(LEFT_REACTION_EMOJI), Added(RIGHT_REACTION_EMOJI)] + whole.1
      decreases |pending|
    {
      var i := WaitFor(pending, PagerFilter(author));
      if i == |pending| || pending[i].TimedOut? {
        message.ClearReactions();
        break;
      }
      var reaction := pending[i];
      ghost var log := message.log;
      curPage := Turnpage(message, curPage, totalPages, reaction, title, contents);
      pending := pending[i + 1..];
      ghost var step := message.log[|log|..];
      assert message.log == log + step;
      AppendAssoc(log, step, Run(pending, author, curPage, totalPages, title, contents).1);
    }
  }

  // ----- slicing a table into pages -----

  /** `pt.get_string(start=s, end=e)`: the rows from `s` up to, not
      including, `e`, with Python's slice clamping. */
  function TableRows<R>(rows: seq<R>, s: nat, e: nat): (r: seq<R>)
    ensures |r| <= |rows|
  {
    var a := Min(s, |rows|);
    var b := Min(e, |rows|);
    if a <= b then rows[a..b] else []
  }

  /** The pages the slicing loop builds, as written: page `k` asks for
      `start = 10k, end = 10k + 9`. */
  function SlicesAsWritten<R>(rows: seq<R>): (pages: seq<seq<R>>)
    ensures |pages| == CeilDiv(|rows|, PT_PAGE_SIZE)
  {
    seq(CeilDiv(|rows|, PT_PAGE_SIZE), k requires 0 <= k =>
      TableRows(rows, k * PT_PAGE_SIZE, k * PT_PAGE_SIZE + PT_PAGE_SIZE - 1))
  }

  /** The slicing loop of `newest`, `creator`, `megamap` and `multimap`,
      as written. */
  method SliceTableAsWritten<R>(rows: seq<R>) returns (splitPt: seq<seq<R>>)
    ensures splitPt == SlicesAsWritten(rows)
  {
    var s, e := 0, PT_PAGE_SIZE - 1;
    splitPt := [];
    while s < |rows|
      invariant s == |splitPt| * PT_PAGE_SIZE && e == s + PT_PAGE_SIZE - 1
      invariant |splitPt| <= CeilDiv(|rows|, PT_PAGE_SIZE)
      invariant forall k :: 0 <= k < |splitPt| ==>
        splitPt[k] == TableRows(rows, k * PT_PAGE_SIZE, k * PT_PAGE_SIZE + PT_PAGE_SIZE - 1)
    {
      splitPt := splitPt + [TableRows(rows, s, e)];
      s, e := s + PT_PAGE_SIZE, e + PT_PAGE_SIZE;
    }
  }

  /** As written, the last row of every full page is never shown: with 11
      rows the pages hold rows 0-8 and row 10, and row 9 is lost. */
  lemma SlicesAsWrittenLoseRow<R>(rows: seq<R>)
    requires |rows| == 11
    ensures Flatten(SlicesAsWritten(rows)) == rows[..9] + rows[10..]
    ensures Flatten(SlicesAsWritten(rows)) != rows
  {
    var pages := SlicesAsWritten(rows);
    assert |pages| == 2;
    assert pages[0] == rows[..9];
    assert pages[1] == rows[10..];
    assert pages == [rows[..9], rows[10..]];
    assert Flatten(pages[1..]) == rows[10..] + Flatten(pages[2..]);
    assert |Flatten(pages)| == 10;
  }

  /** As written, page `k` is the `k`-th page of ten rows cut to its
      first nine: the last row of every full page is dropped. */
  lemma SlicesAsWrittenDropTenth<R>(rows: seq<R>)
    ensures |SlicesAsWritten(rows)| == |Chunks(rows, PT_PAGE_SIZE)|
    ensures forall k :: 0 <= k < |SlicesAsWritten(rows)| ==>
      SlicesAsWritten(rows)[k] == Take(Chunks(rows, PT_PAGE_SIZE)[k], PT_PAGE_SIZE - 1)
  {
    ChunksCount(rows, PT_PAGE_SIZE);
    forall k | 0 <= k < |SlicesAsWritten(rows)|
      ensures SlicesAsWritten(rows)[k] == Take(Chunks(rows, PT_PAGE_SIZE)[k], PT_PAGE_SIZE - 1)
    {
      ChunkAt(rows, PT_PAGE_SIZE, k);
    }
  }

  /** The slicing loop with `end = start + PT_PAGE_SIZE`. */
  method SliceTable<R>(rows: seq<R>) returns (splitPt: seq<seq<R>>)
    ensures splitPt == Chunks(rows, PT_PAGE_SIZE)
  {
    var s, e := 0, PT_PAGE_SIZE;
    splitPt := [];
    while s < |rows|
      invariant e == s + PT_PAGE_SIZE
      invariant splitPt + Chunks(rows[Min(s, |rows|)..], PT_PAGE_SIZE) == Chunks(rows, PT_PAGE_SIZE)
    {
      SlicesStep(rows, s);
      splitPt := splitPt + [TableRows(rows, s, e)];
      s, e := s + PT_PAGE_SIZE, e + PT_PAGE_SIZE;
    }
    assert rows[Min(s, |rows|)..] == [];
  }

  /** One step of the loop above. */
  lemma SlicesStep<R>(rows: seq<R>, s: nat)
    requires s < |rows|
    ensures Chunks(rows[s..], PT_PAGE_SIZE)
         == [TableRows(rows, s, s + PT_PAGE_SIZE)] + Chunks(rows[Min(s + PT_PAGE_SIZE, |rows|)..], PT_PAGE_SIZE)
  {
    var t := rows[s..];
    if |t| <= PT_PAGE_SIZE {
      assert TableRows(rows, s, s + PT_PAGE_SIZE) == t;
      assert rows[Min(s + PT_PAGE_SIZE, |rows|)..] == [];
    } else {
      assert t[..PT_PAGE_SIZE] == TableRows(rows, s, s + PT_PAGE_SIZE);
      assert t[PT_PAGE_SIZE..] == rows[s + PT_PAGE_SIZE..];
    }
  }

  // ----- the listing commands -----

  /** What a listing command sends: a fixed text when nothing matched, one
      table, or a table split into pages handed to the pager; or the
      exception the query raised. */
  datatype Listing<R> =
    | NoResults(text: string)
    | OnePage(title: string, rows: seq<R>)
    | Paged(title: string, pages: seq<seq<R>>)
    | Raised(error: string)

  /** The common tail of `newest`, `creator`, `megamap` and `multimap`:
      count the rows, then send nothing-found, one page, or the pages the
      slicing loop builds as written. */
  method Tabulate<R>(entries: seq<R>, title: string, noneText: string) returns (out: Listing<R>)
    ensures !out.Raised?
    ensures out.NoResults? <==> entries == []
    ensures out.NoResults? ==> out.text == noneText
    ensures out.OnePage? <==> 1 <= |entries| <= PT_PAGE_SIZE
    ensures out.OnePage? ==> out.title == title && out.rows == entries
    ensures out.Paged? ==> (out.title == title && |entries| > PT_PAGE_SIZE
      && out.pages == SlicesAsWritten(entries) && |out.pages| == CeilDiv(|entries|, PT_PAGE_SIZE))
  {
    var pt: seq<R> := [];
    var row := 0;
    while row < |entries|
      invariant 0 <= row <= |entries| && pt == entries[..row]
    {
      pt := pt + [entries[row]];
      row := row + 1;
    }
    assert pt == entries;
    if row != 0 {
      if row <= PT_PAGE_SIZE {
        CeilDivOne(row, PT_PAGE_SIZE);
      }
      if CeilDiv(row, PT_PAGE_SIZE) != 1 {
        var splitPt := SliceTableAsWritten(pt);
        out := Paged(title, splitPt);
      } else {
        out := OnePage(title, pt);
      }
    } else {
      out := NoResults(noneText);
    }
  }

  /** The row count `newest` passes to `skip`: all stored maps minus the
      limit, with no clamp. Motor refuses a negative skip (`ValueError`),
      modelled as None: with fewer stored maps than the limit the command
      fails. */
  function NewestSkip(count: nat): (r: Option<nat>)
    ensures r.Some? <==> count >= NEWEST_MAPS_LIMIT
    ensures r.Some? ==> r.value + NEWEST_MAPS_LIMIT == count
  {
    if count - NEWEST_MAPS_LIMIT < 0 then None else Some(count - NEWEST_MAPS_LIMIT)
  }

  /** Whether a map document satisfies `{field: {"$nin": values}}`: a
      string field whose value is not listed, the list field `type` when
      none of its entries is listed, and any field the document does not
      hold. database/MapData.py:13-18 declares `code`, `creator`,
      `map_name`, `posted_by`, `type` and `desc`; `_id` and `posted_by`
      hold no strings. */
  predicate NinSelects(r: MapRecord, field: string, values: seq<string>)
  {
    if field == "code" then r.code !in values
    else if field == "creator" then r.creator !in values
    else if field == "map_name" then r.mapName !in values
    else if field == "desc" then r.desc !in values
    else if field == "type" then forall t :: t in r.types ==> t !in values
    else true
  }

  /** The documents a `$nin` filter selects, in storage order. */
  function NinSelected(maps: seq<MapRecord>, field: string, values: seq<string>): (r: seq<MapRecord>)
    ensures forall m :: m in r <==> m in maps && NinSelects(m, field, values)
    decreases |maps|
  {
    if maps == [] then []
    else
      assert maps == [maps[0]] + maps[1..];
      (if NinSelects(maps[0], field, values) then [maps[0]] else []) + NinSelected(maps[1..], field, values)
  }

  /** MapData documents hold no `map_type` field, so the filter of
      `newest` selects every stored map. */
  lemma {:induction false} MapTypeFilterSelectsAll(maps: seq<MapRecord>)
    ensures NinSelected(maps, "map_type", ["NOSTALGIA"]) == maps
    decreases |maps|
  {
    if maps != [] {
      MapTypeFilterSelectsAll(maps[1..]);
      assert [maps[0]] + maps[1..] == maps;
    }
  }

  /** A NOSTALGIA map passes the filter `newest` sends; the same filter on
      the field `type`, which holds the map types, would refuse it. */
  lemma NostalgiaPassesMapTypeFilter(r: MapRecord)
    requires "NOSTALGIA" in r.types
    ensures NinSelects(r, "map_type", ["NOSTALGIA"])
    ensures !NinSelects(r, "type", ["NOSTALGIA"])
  {
  }

  /** `newest`: `maps` are all stored map documents in storage order, so
      `count_documents()` is their number. The filter selects every one of
      them, so after the unclamped skip exactly the last
      NEWEST_MAPS_LIMIT maps remain: always one page. With fewer maps
      than the limit the skip is negative and the query raises. */
  method Newest(maps: seq<MapRecord>) returns (query: Query, out: Listing<MapRecord>)
    ensures query == NotIn("map_type", ["NOSTALGIA"])
    ensures out.Raised? <==> |maps| < NEWEST_MAPS_LIMIT
    ensures !out.Raised? ==> out == OnePage("Latest Maps", maps[|maps| - NEWEST_MAPS_LIMIT..])
  {
    query := NotIn("map_type", ["NOSTALGIA"]);
    var skip := NewestSkip(|maps|);
    if skip.None? {
      return query, Raised("ValueError: skip must be >= 0");
    }
    var matching := NinSelected(maps, "map_type", ["NOSTALGIA"]);
    MapTypeFilterSelectsAll(maps);
    var entries := matching[Min(skip.value, |matching|)..];
    out := Tabulate(entries, "Latest Maps", "No latest maps!");
  }

  /** `creator`: the argument is compiled, unescaped, as a
      case-insensitive regular expression; `compiles` says whether
      `re.compile` accepts it (it raises `re.error` on "C++" or "(").
      Titles use the capitalised argument. */
  method Creator(creator: string, compiles: bool, entries: seq<MapRecord>)
    returns (query: Query, out: Listing<MapRecord>)
    ensures query == Regex("creator", creator, true)
    ensures out.Raised? <==> !compiles
    ensures compiles ==> (out.NoResults? <==> entries == [])
    ensures out.NoResults? ==> out.text == "No maps from " + Capitalize(creator) + "!"
    ensures out.OnePage? ==> out.title == Capitalize(creator) && out.rows == entries
    ensures compiles && entries != [] ==> (out.OnePage? <==> |entries| <= PT_PAGE_SIZE)
    ensures out.Paged? ==> |entries| > PT_PAGE_SIZE && |out.pages| == CeilDiv(|entries|, PT_PAGE_SIZE)
    ensures out.Paged? ==> out.title == Capitalize(creator) && out.pages == SlicesAsWritten(entries)
  {
    query := Regex("creator", creator, true);
    if !compiles {
      return query, Raised("re.error");
    }
    out := Tabulate(entries, Capitalize(creator), "No maps from " + Capitalize(creator) + "!");
  }

  /** `mapcode`: every document with the upper-cased code, in one table. */
  method MapCode(mapCode: string, entries: seq<MapRecord>)
    returns (query: Query, out: Listing<MapRecord>)
    ensures query == Eq("_id", Upper(mapCode))
    ensures out.NoResults? <==> entries == []
    ensures out.NoResults? ==> out.text == "No maps " + Upper(mapCode) + "!"
    ensures out.OnePage? ==> out.title == "" && out.rows == entries
    ensures !out.Paged? && !out.Raised?
  {
    query := Eq("_id", Upper(mapCode));
    var pt: seq<MapRecord> := [];
    var row := 0;
    var k := 0;
    while k < |entries|
      invariant 0 <= k <= |entries| && pt == entries[..k] && (row == 1 <==> k > 0)
    {
      pt := pt + [entries[k]];
      row := 1;
      k := k + 1;
    }
    assert pt == entries;
    if row != 0 {
      out := OnePage("", pt);
    } else {
      out := NoResults("No maps " + Upper(mapCode) + "!");
    }
  }

  /** `megamap` (type MEGAMAP, title "Megamap") and `multimap` (type
      MULTIMAP, title "Multimap"). */
  method TypeListing(mapType: string, mapName: string, entries: seq<MapRecord>)
    returns (query: Query, out: Listing<MapRecord>)
    requires (mapType == "MEGAMAP" && mapName == "Megamap") || (mapType == "MULTIMAP" && mapName == "Multimap")
    ensures query == Eq("type", mapType)
    ensures out.NoResults? <==> entries == []
    ensures out.NoResults? ==> out.text == "No " + mapName + "s!"
    ensures !out.Raised?
    ensures out.OnePage? ==> out.title == mapName && out.rows == entries
    ensures entries != [] ==> (out.OnePage? <==> |entries| <= PT_PAGE_SIZE)
    ensures out.Paged? ==> |entries| > PT_PAGE_SIZE && |out.pages| == CeilDiv(|entries|, PT_PAGE_SIZE)
    ensures out.Paged? ==> out.title == mapName && out.pages == SlicesAsWritten(entries)
  {
    query := Eq("type", mapType);
    out := Tabulate(entries, mapName, "No " + mapName + "s!");
  }
}
