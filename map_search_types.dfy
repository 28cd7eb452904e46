/** The newer map search cog, cogs/map_search_types.py: one command per
    map type, each a fixed query handed to `searchmap`; `framework`;
    `newest`, which skips all but the last NEWEST_MAPS_LIMIT documents;
    `creator`, an escaped case-insensitive pattern; and `mapcode`. */
module MapSearchTypes {
  import opened Common
  import opened Text
  import opened Chat
  import opened Constants
  import opened Utilities
  import MapUtils
  import MapSearch

  /** `cog_check`: the map channel, or a direct message (no guild). */
  function CogCheck(channel: int, inGuild: bool, cfg: BotConfig): (r: Option<bool>)
    ensures r.Some? <==> channel == cfg.mapChannel || !inGuild
    ensures r.Some? ==> r.value
  {
    if channel == cfg.mapChannel || !inGuild then Some(true) else None
  }

  // ----- the type commands -----

  /** A command that lists the maps of one type: its name, the title it
      hands to `searchmap` as `map_name`, and the type it queries. */
  datatype TypeCommand = TypeCommand(command: string, title: string, mapType: string)

  /** The type commands in source order; `framework` is apart. */
  const TYPE_COMMANDS: seq<TypeCommand> := [
    TypeCommand("multilevel", "Multilevel", "MULTILEVEL"),
    TypeCommand("single", "SINGLE", "SINGLE"),
    TypeCommand("pioneer", "Pioneer", "PIONEER"),
    TypeCommand("timeattack", "Time Attack", "TIME-ATTACK"),
    TypeCommand("tutorial", "Tutorial", "TUTORIAL"),
    TypeCommand("hardcore", "Hardcore", "HARDCORE"),
    TypeCommand("mildcore", "Mildcore", "MILDCORE"),
    TypeCommand("outofmap", "Out of Map", "OUT-OF-MAP"),
    TypeCommand("abilityblock", "Ability Block", "ABLOCK"),
    TypeCommand("nostalgia", "Nostalgia", "NOSTALGIA"),
    TypeCommand("megamap", "Megamap", "MEGAMAP"),
    TypeCommand("multimap", "Multimap", "MULTIMAP")]

  /** Every type command queries a type of TYPES_OF_MAP, no two the same
      type, and together with `framework` they cover every type. */
  lemma TypeCommandsCoverTypes()
    ensures forall k :: 0 <= k < |TYPE_COMMANDS| ==> TYPE_COMMANDS[k].mapType in TYPES_OF_MAP
    ensures forall i, j :: 0 <= i < j < |TYPE_COMMANDS| ==> TYPE_COMMANDS[i].mapType != TYPE_COMMANDS[j].mapType
    ensures forall t :: t in TYPES_OF_MAP ==>
      t == "FRAMEWORK" || exists k :: 0 <= k < |TYPE_COMMANDS| && TYPE_COMMANDS[k].mapType == t
  {
    forall t | t in TYPES_OF_MAP
      ensures t == "FRAMEWORK" || exists k :: 0 <= k < |TYPE_COMMANDS| && TYPE_COMMANDS[k].mapType == t
    {
      var i :| 0 <= i < |TYPES_OF_MAP| && TYPES_OF_MAP[i] == t;
      if i == 0 { assert TYPE_COMMANDS[1].mapType == t; }
      else if i == 1 { assert TYPE_COMMANDS[0].mapType == t; }
      else if i == 2 { assert TYPE_COMMANDS[2].mapType == t; }
      else if i == 3 { assert TYPE_COMMANDS[3].mapType == t; }
      else if i == 4 { assert TYPE_COMMANDS[10].mapType == t; }
      else if i == 5 { assert TYPE_COMMANDS[11].mapType == t; }
      else if i == 6 { assert TYPE_COMMANDS[4].mapType == t; }
      else if i == 7 { assert TYPE_COMMANDS[5].mapType == t; }
      else if i == 8 { assert TYPE_COMMANDS[6].mapType == t; }
      else if i == 9 { assert TYPE_COMMANDS[7].mapType == t; }
      else if i == 10 { assert TYPE_COMMANDS[8].mapType == t; }
      else if i == 11 { assert TYPE_COMMANDS[9].mapType == t; }
    }
  }

  /** A type command: the query `{"type": T}` and the search of its
      result. `entries` and `count` are as for `searchmap`. */
  method RunTypeCommand(c: TypeCommand, entries: seq<MapRecord>, count: nat, pretty: map<string, string>)
    returns (query: Query, out: MapUtils.Search)
    requires c in TYPE_COMMANDS
    requires count == |entries|
    ensures query == Eq("type", c.mapType)
    ensures c.mapType in TYPES_OF_MAP
    ensures out.NoMapName? <==> !MapUtils.AllNamed(entries, pretty)
    ensures out.Nothing? <==> MapUtils.AllNamed(entries, pretty) && entries == []
    ensures out.Nothing? ==> out.text == "Nothing exists for " + c.title + "!"
    ensures out.Paginated? ==> out.title == c.title && out.pages == MapUtils.SearchPages(MapUtils.Fields(entries, pretty))
    ensures !out.UnknownType?
  {
    TypeCommandsCoverTypes();
    query := Eq("type", c.mapType);
    out := MapUtils.SearchMap("", c.title, "", "", entries, count, pretty);
  }

  /** `framework`: maps with the FRAMEWORK type or the FRAMEWORK map name. */
  method Framework(entries: seq<MapRecord>, count: nat, pretty: map<string, string>)
    returns (query: Query, out: MapUtils.Search)
    requires count == |entries|
    ensures query == AnyOf([Eq("type", "FRAMEWORK"), Eq("map_name", "FRAMEWORK")])
    ensures out.NoMapName? <==> !MapUtils.AllNamed(entries, pretty)
    ensures out.Nothing? <==> MapUtils.AllNamed(entries, pretty) && entries == []
    ensures out.Paginated? ==> (out.title == "Frameworks"
      && out.pages == MapUtils.SearchPages(MapUtils.Fields(entries, pretty)))
    ensures !out.UnknownType?
  {
    query := AnyOf([Eq("type", "FRAMEWORK"), Eq("map_name", "FRAMEWORK")]);
    out := MapUtils.SearchMap("", "Frameworks", "", "", entries, count, pretty);
  }

  // ----- newest -----

  /** The skip of `newest`: `count - NEWEST_MAPS_LIMIT` when positive, else 0. */
  function NewestSkip(count: nat): (skip: nat)
    ensures skip + Min(count, NEWEST_MAPS_LIMIT) == count
    ensures count <= NEWEST_MAPS_LIMIT ==> skip == 0
  {
    if count > NEWEST_MAPS_LIMIT then count - NEWEST_MAPS_LIMIT else 0
  }

  /** Where the older cog's skip is defined it agrees with the clamped one;
      the clamped one is defined for every count, the older one only from
      the limit up. */
  lemma NewestSkipAgrees(count: nat)
    ensures MapSearch.NewestSkip(count).Some? ==> MapSearch.NewestSkip(count).value == NewestSkip(count)
    ensures count < NEWEST_MAPS_LIMIT ==> MapSearch.NewestSkip(count).None? && NewestSkip(count) == 0
  {
  }

  /** What `newest` sends. */
  datatype Newest =
    | UnknownType(text: string)
    | NoMapName(mapName: string)
    | Shown(title: string, fields: seq<MapUtils.MapField>)
    | NoneFound(text: string)

  /** The type argument as `newest` reads it: upper-cased, then expanded. */
  function NewestType(mapType: string): string
  {
    ConvertShortTypes(Upper(mapType))
  }

  /** The query of `newest`: every document for no type, else the type. */
  function NewestQuery(mapType: string): (q: Query)
    ensures NewestType(mapType) == "" ==> q == Everything
    ensures NewestType(mapType) != "" ==> q == Eq("type", NewestType(mapType))
  {
    if NewestType(mapType) != "" then Eq("type", NewestType(mapType)) else Everything
  }

  /** An empty type queries everything: NOSTALGIA maps are not excluded. */
  lemma NewestOfEmptyType()
    ensures NewestQuery("") == Everything
  {
    assert Upper("") == "";
  }

  /** `newest(ctx, map_type)`. `entries` are the documents the query
      selects, in storage order; `count` is their number. */
  method NewestMaps(mapType: string, entries: seq<MapRecord>, count: nat, pretty: map<string, string>)
    returns (query: Query, out: Newest)
    requires count == |entries|
    ensures out.UnknownType? <==> NewestType(mapType) != "" && NewestType(mapType) !in TYPES_OF_MAP
    ensures out.UnknownType? ==> (out.text == NewestType(mapType)
      + " not in map types. Use `/maptypes` for a list of acceptable map types.")
    ensures !out.UnknownType? ==> query == NewestQuery(mapType)
    ensures out.NoMapName? ==> !MapUtils.AllNamed(entries[NewestSkip(count)..], pretty)
    ensures out.NoneFound? <==> !out.UnknownType? && entries == []
    ensures out.NoneFound? ==> out.text == "No latest maps!"
    ensures out.Shown? ==> (out.title == "Newest Maps"
      && out.fields == MapUtils.Fields(entries[NewestSkip(count)..], pretty)
      && |out.fields| == Min(count, NEWEST_MAPS_LIMIT)
      && MapUtils.AllNamed(entries[NewestSkip(count)..], pretty))
  {
    query := Everything;
    var t := NewestType(mapType);
    if t != "" {
      if t !in TYPES_OF_MAP {
        return query, UnknownType(t + " not in map types. Use `/maptypes` for a list of acceptable map types.");
      }
      query := Eq("type", t);
    }
    var skip := if count > NEWEST_MAPS_LIMIT then count - NEWEST_MAPS_LIMIT else 0;
    var rest := entries[skip..];
    var row, fields, missing := NewestFields(rest, pretty);
    if missing.Some? {
      return query, Newest.NoMapName(missing.value);
    }
    if row != 0 {
      out := Shown("Newest Maps", fields);
    } else {
      out := NoneFound("No latest maps!");
    }
  }

  /** The loop of `newest` over the shown entries: a field per entry, or
      the first map name without a display name; `row` is 1 once an entry
      was listed. */
  method NewestFields(rest: seq<MapRecord>, pretty: map<string, string>)
    returns (row: nat, fields: seq<MapUtils.MapField>, missing: Option<string>)
    ensures missing.Some? <==> !MapUtils.AllNamed(rest, pretty)
    ensures missing.Some? ==> missing.value !in pretty
    ensures missing.None? ==> fields == MapUtils.Fields(rest, pretty) && (row != 0 <==> rest != [])
  {
    fields, row, missing := [], 0, None;
    var k := 0;
    while k < |rest|
      invariant k <= |rest|
      invariant row == (if k == 0 then 0 else 1)
      invariant forall j :: 0 <= j < k ==> rest[j].mapName in pretty
      invariant fields == MapUtils.Fields(rest[..k], pretty)
    {
      if rest[k].mapName !in pretty {
        return row, fields, Some(rest[k].mapName);
      }
      fields := fields + [MapUtils.FieldOf(rest[k], pretty)];
      row := 1;
      k := k + 1;
    }
    assert rest[..k] == rest;
  }

  /** The shown maps are the last min(count, NEWEST_MAPS_LIMIT) in storage
      order. */
  lemma NewestAreLast(entries: seq<MapRecord>)
    ensures entries[NewestSkip(|entries|)..] == entries[|entries| - Min(|entries|, NEWEST_MAPS_LIMIT)..]
    ensures |entries[NewestSkip(|entries|)..]| == Min(|entries|, NEWEST_MAPS_LIMIT)
  {
  }

  // ----- creator / mapcode -----

  /** `creator(ctx, creator)`: an escaped, case-insensitive pattern on the
      creator field, titled with the capitalised argument. */
  method CreatorSearch(creator: string, entries: seq<MapRecord>, count: nat, pretty: map<string, string>)
    returns (query: Query, out: MapUtils.Search)
    requires count == |entries|
    ensures query == Regex("creator", RegexEscape(creator), true)
    ensures RegexUnescape(query.pattern) == creator
    ensures out.NoMapName? <==> !MapUtils.AllNamed(entries, pretty)
    ensures out.Nothing? <==> MapUtils.AllNamed(entries, pretty) && entries == []
    ensures out.Paginated? ==> (out.title == MapUtils.FirstNonEmpty("", Capitalize(creator), "", "")
      && out.pages == MapUtils.SearchPages(MapUtils.Fields(entries, pretty)))
    ensures !out.UnknownType?
  {
    EscapeRoundTrip(creator);
    query := Regex("creator", RegexEscape(creator), true);
    out := MapUtils.SearchMap("", "", Capitalize(creator), "", entries, count, pretty);
  }

  /** What `mapcode` sends: the embed of one map, or a text. */
  datatype CodeLookup = Found(field: MapUtils.MapField) | NotFound(text: string) | NoMapName(mapName: string)

  /** `mapcode(ctx, map_code)`: the embed is rebuilt for every document
      with the upper-cased code, so only the last one is shown. */
  method MapCodeSearch(mapCode: string, entries: seq<MapRecord>, pretty: map<string, string>)
    returns (query: Query, out: CodeLookup)
    ensures query == Eq("code", Upper(mapCode))
    ensures out.NotFound? <==> entries == []
    ensures out.NotFound? ==> out.text == Upper(mapCode) + " does not exist!"
    ensures out.NoMapName? <==> !MapUtils.AllNamed(entries, pretty)
    ensures out.Found? ==> (MapUtils.AllNamed(entries, pretty)
      && out.field == MapUtils.FieldOf(entries[|entries| - 1], pretty))
  {
    var code := Upper(mapCode);
    query := Eq("code", code);
    var embed: Option<MapUtils.MapField> := None;
    var k := 0;
    while k < |entries|
      invariant k <= |entries|
      invariant forall j :: 0 <= j < k ==> entries[j].mapName in pretty
      invariant k == 0 <==> embed.None?
      invariant k > 0 ==> embed == Some(MapUtils.FieldOf(entries[k - 1], pretty))
    {
      if entries[k].mapName !in pretty {
        return query, CodeLookup.NoMapName(entries[k].mapName);
      }
      embed := Some(MapUtils.FieldOf(entries[k], pretty));
      k := k + 1;
    }
    if embed.Some? {
      out := Found(embed.value);
    } else {
      out := NotFound(code + " does not exist!");
    }
  }
}
