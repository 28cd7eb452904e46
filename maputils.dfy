/** The map helpers of internal/map_utils.py: the paged map search, the
    normalised map-name query, the permission check of the edit commands
    and the commit of a confirmed edit. */
module MapUtils {
  import opened Common
  import opened Text
  import opened Chat
  import opened Constants
  import opened Documents

  // ----- searchmap -----

  /** Python's `a or b or c or d` on strings: the first non-empty one. */
  function FirstNonEmpty(a: string, b: string, c: string, d: string): (r: string)
    ensures r == a || r == b || r == c || r == d
    ensures r == "" <==> a == "" && b == "" && c == "" && d == ""
  {
    if a != "" then a else if b != "" then b else if c != "" then c else d
  }

  /** One embed field of the map search: code, pretty map name, creator,
      types and description of a map. */
  datatype MapField = MapField(code: string, prettyName: string, creator: string,
                               types: seq<string>, desc: string)

  /** Every entry's map name has a pretty name in `pretty`. */
  predicate AllNamed(entries: seq<MapRecord>, pretty: map<string, string>)
  {
    forall k :: 0 <= k < |entries| ==> entries[k].mapName in pretty
  }

  /** The field for `entry`; `pretty` is the PRETTY_NAMES table of the
      constants module in use (the lookup only happens for names in it). */
  function FieldOf(entry: MapRecord, pretty: map<string, string>): MapField
  {
    MapField(entry.code, if entry.mapName in pretty then pretty[entry.mapName] else "",
             entry.creator, entry.types, entry.desc)
  }

  /** The fields of `entries`, in order. */
  function Fields(entries: seq<MapRecord>, pretty: map<string, string>): (r: seq<MapField>)
    ensures |r| == |entries|
    ensures forall k :: 0 <= k < |entries| ==> r[k] == FieldOf(entries[k], pretty)
  {
    seq(|entries|, k requires 0 <= k < |entries| => FieldOf(entries[k], pretty))
  }

  /** The pages `searchmap` builds: the first embed is closed at row 10
      and so holds up to 11 fields, each later one up to 10. */
  function SearchPages<T>(rows: seq<T>): seq<seq<T>>
  {
    PagesFrom(rows, 11)
  }

  /** Pages of `rows` whose first holds up to `first` rows and every
      later one up to 10. */
  function PagesFrom<T>(rows: seq<T>, first: nat): seq<seq<T>>
    requires first > 0
    decreases |rows|
  {
    if rows == [] then []
    else if |rows| <= first then [rows]
    else [rows[..first]] + PagesFrom(rows[first..], 10)
  }

  /** After the first page, the pages are the chunks of ten. */
  lemma {:induction false} PagesFromTen<T>(rows: seq<T>)
    ensures PagesFrom(rows, 10) == Chunks(rows, 10)
    decreases |rows|
  {
    if |rows| > 10 {
      PagesFromTen(rows[10..]);
    }
  }

  /** Every row lands on exactly one page, in order; the first page holds
      1 to 11 rows, every later page 1 to 10, and all pages between the
      first and the last exactly 10. */
  lemma SearchPagesCover<T>(rows: seq<T>)
    ensures Flatten(SearchPages(rows)) == rows
    ensures |SearchPages(rows)| >= 1 ==> 1 <= |SearchPages(rows)[0]| <= 11
    ensures forall k :: 1 <= k < |SearchPages(rows)| ==> 1 <= |SearchPages(rows)[k]| <= 10
    ensures forall k :: 1 <= k < |SearchPages(rows)| - 1 ==> |SearchPages(rows)[k]| == 10
    ensures |rows| == 1 ==> SearchPages(rows) == [rows]
  {
    if |rows| > 11 {
      var rest := rows[11..];
      PagesFromTen(rest);
      ChunksCover(rest, 10);
      assert SearchPages(rows)[1..] == Chunks(rest, 10);
      assert Flatten(SearchPages(rows)) == rows[..11] + Flatten(Chunks(rest, 10));
      assert rows[..11] + rest == rows;
    }
  }

  /** Closing a page of the search: the first once it has 11 rows, the
      later ones at 10, and the last one with what is left. */
  lemma SearchPagesAppend<T>(a: seq<T>, b: seq<T>, q: nat)
    requires (a == [] && 1 <= |b| <= 11) || (|a| == 11 + 10 * q && 1 <= |b| <= 10)
    ensures SearchPages(a + b) == SearchPages(a) + [b]
  {
    if a == [] {
      assert a + b == b;
    } else {
      assert (a + b)[..11] == a[..11];
      assert (a + b)[11..] == a[11..] + b;
      PagesFromTen(a[11..]);
      PagesFromTen(a[11..] + b);
      if |a| == 11 {
        assert a[11..] == [];
        assert a[11..] + b == b;
        assert a[..11] == a;
      } else {
        ChunksAppend(a[11..], b, 10, q);
      }
    }
  }

  /** The pages after one more row is put on the open embed `all[base..row]`
      and that embed is closed. */
  lemma CloseSearchPage(all: seq<MapField>, base: nat, row: nat, e: nat)
    requires base <= row < |all|
    requires (base == 0 && e == 0 && row <= 10) || (base == 1 + 10 * e && e >= 1 && row - base < 10)
    ensures SearchPages(all[..row + 1]) == SearchPages(all[..base]) + [all[base..row + 1]]
  {
    assert all[..base] + all[base..row + 1] == all[..row + 1];
    if base == 0 {
      assert all[..base] == [];
      SearchPagesAppend(all[..base], all[base..row + 1], 0);
    } else {
      SearchPagesAppend(all[..base], all[base..row + 1], e - 1);
    }
  }

  /** An embed closed at a multiple of 10 before the last row: the next
      one opens at the row after. */
  lemma NextSearchPage(base: nat, row: nat, e: nat)
    requires (base == 0 && e == 0 && row <= 10) || (base == 1 + 10 * e && e >= 1 && row - base < 10)
    requires base <= row && row != 0 && row % 10 == 0
    ensures row + 1 == 1 + 10 * (e + 1)
  {
  }

  /** A row that closes no embed leaves room in the open one. */
  lemma SameSearchPage(base: nat, row: nat, e: nat)
    requires (base == 0 && e == 0 && row <= 10) || (base == 1 + 10 * e && e >= 1 && row - base < 10)
    requires base <= row && (row % 10 != 0 || row == 0)
    ensures base == 0 ==> row + 1 <= 10
    ensures base > 0 ==> row + 1 - base < 10
  {
  }

  /** What `searchmap` sends. */
  datatype Search =
    | UnknownType(text: string)              // map_type not in TYPES_OF_MAP
    | NoMapName(mapName: string)             // PRETTY_NAMES[...] raises KeyError
    | Paginated(title: string, pages: seq<seq<MapField>>)
    | Nothing(text: string)

  /** `searchmap(ctx, query, map_type, map_name, creator, map_code)`.
      `entries` is the query's result sorted by map name and `count` its
      document count, the number of entries the cursor yields. */
  method SearchMap(mapType: string, mapName: string, creator: string, mapCode: string,
                   entries: seq<MapRecord>, count: nat, pretty: map<string, string>)
    returns (out: Search)
    requires count == |entries|
    ensures out.UnknownType? <==> mapType != "" && mapType !in TYPES_OF_MAP
    ensures out.UnknownType? ==>
      out.text == mapType + " not in map types. Use `/maptypes` for a list of acceptable map types."
    ensures out.NoMapName? <==> (mapType == "" || mapType in TYPES_OF_MAP) && !AllNamed(entries, pretty)
    ensures out.Nothing? <==>
      (mapType == "" || mapType in TYPES_OF_MAP) && AllNamed(entries, pretty) && entries == []
    ensures out.Nothing? ==>
      out.text == "Nothing exists for " + FirstNonEmpty(mapName, creator, mapCode, mapType) + "!"
    ensures out.Paginated? ==> AllNamed(entries, pretty)
    ensures out.Paginated? ==> out.title == FirstNonEmpty(mapName, creator, mapCode, mapType)
    ensures out.Paginated? ==> out.pages == SearchPages(Fields(entries, pretty))
  {
    if mapType != "" {
      if mapType !in TYPES_OF_MAP {
        return UnknownType(mapType + " not in map types. Use `/maptypes` for a list of acceptable map types.");
      }
    }
    var title := FirstNonEmpty(mapName, creator, mapCode, mapType);
    var row, embeds, missing := CollectPages(entries, count, pretty);
    if missing.Some? {
      return NoMapName(missing.value);
    }
    if row != 0 {
      out := Paginated(title, embeds);
    } else {
      out := Nothing("Nothing exists for " + title + "!");
    }
  }

  /** The `async for` loop of `searchmap`: one field per entry, an embed
      closed at row 10, 20, ... and at the last row, the single embed of a
      one-entry result, and the KeyError of an entry whose map name has no
      pretty name (`missing`). `row` is the number of rows read. */
  method CollectPages(entries: seq<MapRecord>, count: nat, pretty: map<string, string>)
    returns (row: nat, embeds: seq<seq<MapField>>, missing: Option<string>)
    requires count == |entries|
    ensures missing.Some? <==> !AllNamed(entries, pretty)
    ensures missing.Some? ==> missing.value !in pretty
    ensures missing.None? ==> row == |entries| && embeds == SearchPages(Fields(entries, pretty))
  {
    missing := None;
    ghost var all := Fields(entries, pretty);
    row := 0;
    var embed: seq<MapField> := [];
    embeds := [];
    ghost var base := 0;
    while row < |entries|
      invariant 0 <= base <= row <= |entries|
      invariant forall k :: 0 <= k < row ==> entries[k].mapName in pretty
      invariant row < count && base == 0 ==> |embeds| == 0 && row <= 10
      invariant row < count && base > 0 ==> base == 1 + 10 * |embeds| && |embeds| >= 1 && row - base < 10
      invariant row < count ==> embeds == SearchPages(all[..base]) && embed == all[base..row]
      invariant row == count ==> embeds == SearchPages(all)
    {
      var entry := entries[row];
      if entry.mapName !in pretty {
        missing := Some(entry.mapName);
        return;
      }
      var field := FieldOf(entry, pretty);
      if row != 0 && (row % 10 == 0 || count - 1 == row) {
        SliceSnoc(all, base, row);
        embed := embed + [field];
        CloseSearchPage(all, base, row, |embeds|);
        embeds := embeds + [embed];
        embed := [];
        if row + 1 < count {
          NextSearchPage(base, row, |embeds| - 1);
          base := row + 1;
        } else {
          assert all[..row + 1] == all;
        }
      } else if row % 10 != 0 || row == 0 {
        SameSearchPage(base, row, |embeds|);
        SliceSnoc(all, base, row);
        embed := embed + [field];
      }
      if count == 1 {
        CloseSearchPage(all, 0, 0, 0);
        assert all[..0] == [] && all[..1] == all;
        embeds := embeds + [embed];
      }
      row := row + 1;
    }
  }

  // ----- normal_map_query -----

  /** The map name as `normal_map_query` stores it: whitespace removed,
      lower-cased, apostrophes and colons removed. */
  function NormalName(mapName: string): string
  {
    RemoveChar(RemoveChar(Lower(Concat(Words(mapName))), '\''), ':')
  }

  /** `normal_map_query(map_name, map_type)`: the type key is present only
      for a non-empty type, upper-cased. */
  function NormalMapQuery(mapName: string, mapType: string): (q: Query)
    ensures mapType == "" ==> q == Eq("map_name", NormalName(mapName))
    ensures mapType != "" ==> q == AllOf([Eq("map_name", NormalName(mapName)), Eq("type", Upper(mapType))])
  {
    if mapType != "" then AllOf([Eq("map_name", NormalName(mapName)), Eq("type", Upper(mapType))])
    else Eq("map_name", NormalName(mapName))
  }

  lemma LowerKeepsNoSpace(s: string)
    requires NoSpace(s)
    ensures NoSpace(Lower(s))
  {
    forall i | 0 <= i < |s| ensures !IsSpace(Lower(s)[i]) {
      assert Lower(s)[i] == LowerChar(s[i]);
    }
  }

  lemma {:induction false} RemoveCharKeeps(s: string, c: char)
    ensures NoSpace(s) ==> NoSpace(RemoveChar(s, c))
    ensures IsLowerCased(s) ==> IsLowerCased(RemoveChar(s, c))
  {
    var r := RemoveChar(s, c);
    forall i | 0 <= i < |r| ensures r[i] in s {
    }
  }

  /** The normalised name has no whitespace, apostrophe or colon and no
      upper-case letter. */
  lemma NormalNameShape(mapName: string)
    ensures NoSpace(NormalName(mapName))
    ensures IsLowerCased(NormalName(mapName))
    ensures '\'' !in NormalName(mapName) && ':' !in NormalName(mapName)
  {
    var joined := Concat(Words(mapName));
    ConcatWords(mapName);
    RemoveSpacesHasNoSpace(mapName);
    LowerKeepsNoSpace(joined);
    LowerIsLowerCased(joined);
    var a := RemoveChar(Lower(joined), '\'');
    RemoveCharKeeps(Lower(joined), '\'');
    RemoveCharKeeps(a, ':');
    var r := RemoveChar(a, ':');
    assert forall i :: 0 <= i < |a| ==> a[i] != '\'';
    forall i | 0 <= i < |r| ensures r[i] != '\'' && r[i] != ':' {
      assert r[i] in a;
    }
  }

  /** Normalising a normalised name changes nothing. */
  lemma NormalNameIdempotent(mapName: string)
    ensures NormalName(NormalName(mapName)) == NormalName(mapName)
  {
    var n := NormalName(mapName);
    NormalNameShape(mapName);
    WordsOfWord(n);
    assert Concat(Words(n)) == n;
    LowerOfLowerCased(n);
  }

  // ----- map_edit_checks / map_edit_confirmation -----

  /** What `map_edit_checks` sends to a member it refuses. */
  const NO_EDIT_PERMISSION := "You do not have sufficient permissions. Map was not deleted."

  /** The KeyError `PRETTY_NAMES[document.map_name]` raises when the
      stored map name is not a key. */
  function PrettyNameError(search: MapRecord): string
  {
    "KeyError: " + search.mapName
  }

  /** `map_edit_checks(ctx, map_code, search)`: 1 and no message when the
      map exists, the author posted it and the author holds a whitelisted
      role; otherwise 0 and the reason sent to the channel. */
  function MapEditChecks(mapCode: string, search: Option<MapRecord>, author: Member, cfg: BotConfig)
    : (r: (int, Option<string>))
    ensures r.0 == 1 <==> search.Some? && search.value.postedBy == author.id && HasWhitelistedRole(author, cfg)
    ensures r.0 == 0 || r.0 == 1
    ensures r.0 == 1 <==> r.1.None?
    ensures search.None? ==> r.1 == Some(mapCode + " does not exist.")
    ensures search.Some? && r.0 == 0 ==> r.1 == Some(NO_EDIT_PERMISSION)
  {
    if search.None? then (0, Some(mapCode + " does not exist."))
    else if search.value.postedBy != author.id || !HasWhitelistedRole(author, cfg) then
      (0, Some(NO_EDIT_PERMISSION))
    else (1, None)
  }

  /** `map_edit_checks` as its comment and the help texts of the edit
      commands describe it: the original poster OR a member with a
      whitelisted role may go on, the rule of the older cog. */
  function MapEditChecksIntended(mapCode: string, search: Option<MapRecord>, author: Member, cfg: BotConfig)
    : (r: (int, Option<string>))
    ensures r.0 == 1 <==> search.Some? && (search.value.postedBy == author.id || HasWhitelistedRole(author, cfg))
    ensures r.0 == 0 || r.0 == 1
    ensures r.0 == 1 <==> r.1.None?
    ensures search.None? ==> r.1 == Some(mapCode + " does not exist.")
    ensures search.Some? && r.0 == 0 ==> r.1 == Some(NO_EDIT_PERMISSION)
  {
    if search.None? then (0, Some(mapCode + " does not exist."))
    else if search.value.postedBy != author.id && !HasWhitelistedRole(author, cfg) then
      (0, Some(NO_EDIT_PERMISSION))
    else (1, None)
  }

  /** The text `map_edit_confirmation` puts on the message. */
  function EditNotice(confirmed: Confirmed, code: string): string
  {
    match confirmed
    case Accepted => code + " has been edited."
    case Rejected => code + " has not been edited."
    case Unanswered => "Submission timed out! " + code + " has not been edited."
  }

  /** `map_edit_confirmation(confirmed, msg, document)`: edit the message,
      commit the document only on True, and clear the reactions in every case. */
  method MapEditConfirmation(confirmed: Confirmed, msg: Message, document: MapDocument,
                             journal: Journal<MapRecord>)
    modifies msg, journal
    ensures journal.writes
         == old(journal.writes) + (if confirmed == Accepted then [Committed(document.Value())] else [])
    ensures msg.content == EditNotice(confirmed, document.code)
    ensures msg.log == old(msg.log) + [Edited(EditNotice(confirmed, document.code)), Cleared]
    ensures msg.reactions == {}
  {
    if confirmed == Accepted {
      msg.Edit(document.code + " has been edited.");
      journal.Commit(document.Value());
    } else if confirmed == Rejected {
      msg.Edit(document.code + " has not been edited.");
    } else if confirmed == Unanswered {
      msg.Edit("Submission timed out! " + document.code + " has not been edited.");
    }
    msg.ClearReactions();
  }
}
