# dfpk-bot in Dafny

A model of the rule-bearing core of dfpk-bot. This Discord bot keeps a MongoDB catalogue of Overwatch Workshop parkour maps and the players' personal-best times on their levels. Proofs of the model's properties come with it.

The model covers these parts of the bot:

- **Reaction-driven interactions.** These are the `confirm` gate (internal/confirmation.py), the page-flipping paginator of `MapSearch.pages` (cogs/mapsearch.py) and the moderators' verification listener (cogs/verification.py). Each runs over a finite sequence of reaction events. The end of the sequence, or a `TimedOut` marker, stands for the timer running out. A message is a class whose reaction set and action log its methods change.
- **Validators and normalisers.**
  - map-code checks, in their older and newer forms;
  - the alias tables of internal/constants.py and the map-name lookup over them;
  - short map-type expansion;
  - `normal_map_query`;
  - the edit and delete permission rules; the older cogs allow the poster OR a whitelisted role, the newer ones the poster AND a whitelisted role;
  - the `H:M:S` time conversion and `date_func`'s format choice;
  - `get_config_var`'s precedence (main.py).
- **Chunking, grouping and deduplication.** The model covers:
  - the `searchmap` embed pages, of 11 rows and then 10;
  - PrettyTable slicing;
  - tournament boards, 10 to a page;
  - `pb`'s map groups, three to a page and halved over 1024 characters;
  - the first-occurrence dedupe of level names;
  - rank numbering.

  Every row lands on exactly one page, in order, and the page sizes are bounded.
- **Submission rules** of both generations of the map and personal-best cogs (cogs/submitmap.py and cogs/submitpersonalbest.py; cogs/submit_map.py and cogs/submit_personal_best.py):
  - new document vs update;
  - "must be strictly faster";
  - the fields an accepted update rewrites;
  - a commit only when `confirm` returned True.
- **umongo's change tracker.** The model covers:
  - `BaseDataProxy` and `BaseNonStrictDataProxy`, a class over the stored entries, the set of modified keys and the unknown database entries;
  - the `List` and `Dict` data objects, each a class with its own modified flag;
  - `Reference.__eq__`;
  - index-key parsing (umongo's indexes.py).

Database results are given to each operation as sequences already in the order the query asks for. Commits and deletes are appended to a `Journal`. Channel ids, the role whitelist and the bot's id form a `BotConfig` parameter. `PRETTY_NAMES` and `display_record` are parameters where a command uses them.

Some source pieces are shared:

- The `cog_check`s of cogs/submit_personal_best.py, cogs/submitpersonalbest.py, cogs/viewpersonalbest.py and cogs/verification.py are one rule: only the record channel. The one of cogs/view_personal_best.py also allows a direct message.
- internal/pb_utils.py's `time_convert` is the same function as internal/utilities.py's, and `Utilities.TimeConvert` models both.
- cogs/submit_map.py calls `utilities.map_name_converter`, but internal/utilities.py does not define it. The model uses `map_name_converter` of cogs/submitmap.py instead.
- cogs/map_search_types.py imports `convert_short_types` from internal/map_utils.py, which does not define it either. The model uses the one of internal/utilities.py.

Modules follow the source files:

| module | source |
|---|---|
| `Confirmation`, `Chat` | internal/confirmation.py (Chat holds the message, event and journal model shared by all cogs) |
| `MapSearch` | cogs/mapsearch.py |
| `MapSearchTypes` | cogs/map_search_types.py |
| `MapHelp` | cogs/maphelp.py |
| `MapUtils` | internal/map_utils.py |
| `Utilities` | internal/utilities.py |
| `PbUtils` | internal/pb_utils.py |
| `Constants` | internal/constants.py |
| `LegacyMapSubmission` | cogs/submitmap.py |
| `MapSubmission` | cogs/submit_map.py |
| `LegacyPersonalBestSubmission` | cogs/submitpersonalbest.py |
| `PersonalBestSubmission` | cogs/submit_personal_best.py |
| `LegacyPersonalBestViews` | cogs/viewpersonalbest.py |
| `PersonalBestViews` | cogs/view_personal_best.py |
| `Verification` | cogs/verification.py |
| `TournamentUtils` | internal/tournament_utils.py |
| `Config` | main.py |
| `DataProxy`, `DataObjects`, `Indexes`, `MongoValues` | umongo's data_proxy.py, data_objects.py and indexes.py |
| `Documents`, `Common`, `Text` | the MapData and WorldRecords documents, shared sequence lemmas, and Python string behaviour (ASCII case mapping, `split`, `re.escape`, number parsing) |

## Model

| member | source | states |
|---|---|---|
| Chat.WaitFor | internal/confirmation.py:33 | the position `wait_for` returns at is the first event that times out or passes the check; every event before it is a reaction that fails the check |
| Chat.WaitForIsFirst | internal/confirmation.py:33 | any position with those properties is the one `wait_for` returns (uniqueness) |
| Chat.WaitForIgnoresLater | internal/confirmation.py:33 | events after the returned one are never looked at |
| Chat.Message.AddReaction | internal/confirmation.py:29-30 | the bot's mark is added to the reaction set and the action is logged; the text is unchanged |
| Chat.Message.ClearReactions | internal/confirmation.py:38-43 | the reaction set becomes empty and the clear is logged; the text is unchanged |
| Chat.Message.Edit | cogs/submit_map.py:95-104 | the text becomes the new one, the edit is logged, the reactions are unchanged |
| Chat.Message.RemoveReaction | cogs/mapsearch.py:54-78 | exactly the one user's mark of that emoji, if the message holds it, is removed, and the removal is logged |
| Chat.Journal.Commit | cogs/submit_map.py:98 | `commit()` appends exactly one write of the document to the journal |
| Chat.Journal.Delete | cogs/submit_map.py:128 | `delete()` appends exactly one delete of the document to the journal |
| Confirmation.PassesConfirmFilter | internal/confirmation.py:21-27 | `check` passes exactly for a confirm or cancel emoji by the author on this message |
| Confirmation.OutcomeSkips | internal/confirmation.py:21-33 | a reaction that fails `check` does not change the outcome |
| Confirmation.OutcomeOfQualifying | internal/confirmation.py:35-41 | the first passing reaction decides: confirm gives True, cancel gives False |
| Confirmation.OutcomeOfTimeout | internal/confirmation.py:42-44 | a time-out before any passing reaction gives None |
| Confirmation.OutcomeIgnoresLater | internal/confirmation.py:33-44 | events after the deciding one never change the outcome |
| Confirmation.OutcomeNeedsQualifying | internal/confirmation.py:33-41 | True or False only ever come from a passing reaction with no time-out before it |
| Confirmation.Confirm | internal/confirmation.py:14-44 | adds the confirm then the cancel emoji, returns the outcome of the events, and leaves no reactions on every exit path; the action log is add, add, clear |
| Utilities.IsEnglish | internal/utilities.py:5-6 | true exactly when every character of the string is ASCII |
| Utilities.DateFormat | internal/utilities.py:16-29 | a format is chosen exactly when the input has at most two ':' and at most one '.', it is one of the six strptime formats, and it has as many ':' and '.' as the input; otherwise None |
| Utilities.FormatCounts | internal/utilities.py:18-28 | the ':' and '.' counts of each of the six strptime formats |
| Utilities.TimeConvert | internal/utilities.py:32-42 | the result is None exactly when the input has three or more ':' |
| Utilities.TimeConvertSeconds | internal/utilities.py:34-35 | a whole number of seconds converts to that many seconds |
| Utilities.TimeConvertMinutes | internal/utilities.py:36-37 | "m:s" converts to 60 m + s seconds |
| Utilities.TimeConvertHours | internal/utilities.py:38-41 | "h:m:s" converts to 3600 h + 60 m + s seconds |
| Utilities.TimeConvertOfTwo | internal/utilities.py:33-37 | any two-part input whose first part parses as the integer m and second as the float s, a fraction or a sign included, converts to 60 m + s |
| Utilities.TimeConvertOfThree | internal/utilities.py:33-41 | any three-part input whose parts parse as the integers h and m and the float s converts to 3600 h + 60 m + s |
| Utilities.TimeConvertMinutesOf | internal/utilities.py:33-37 | "m:S" converts to 60 m plus the value `float` reads from S, fractional seconds included |
| Utilities.SplitThree | internal/utilities.py:33 | splitting "a:b:c" on ':' gives the three parts when none holds ':' |
| Utilities.NoColonInNumber | internal/utilities.py:33 | a rendered number holds no ':', so it is one part of the split |
| Utilities.ConvertShortTypes | internal/utilities.py:52-64 | the result is the input or one of the map types, and a full map type is returned unchanged |
| Utilities.ConvertShortTypesIsTable | internal/utilities.py:52-64 | each alias of the five lists expands to its full type and every other string comes back unchanged |
| Utilities.ConvertShortTypesIdempotent | internal/utilities.py:52-64 | expanding twice gives the same as expanding once |
| Text.UpperChar | internal/map_utils.py:103 | a letter becomes an upper-case letter and any non-lower-case character is kept |
| Text.LowerChar | internal/map_utils.py:102 | a letter becomes a lower-case letter and any non-upper-case character is kept |
| Text.Upper | cogs/submit_map.py:68 | `str.upper()` keeps the length |
| Text.Lower | cogs/submit_map.py:47 | `str.lower()` keeps the length |
| Text.Capitalize | cogs/mapsearch.py:167 | `str.capitalize()` keeps the length |
| Text.UpperIsUpperCased | cogs/submit_map.py:68 | the upper-cased string holds no lower-case letter, and upper-casing again changes nothing |
| Text.LowerIsLowerCased | cogs/submit_map.py:47 | the lower-cased string holds no upper-case letter, and lower-casing again changes nothing |
| Text.UpperOfUpperCased | cogs/submit_personal_best.py:53 | a string without lower-case letters is its own upper case |
| Text.LowerOfLowerCased | internal/map_utils.py:102 | a string without upper-case letters is its own lower case |
| Text.RemoveChar | internal/map_utils.py:102 | `replace(c, '')` leaves no `c`, keeps only characters of the input, and changes nothing when `c` is absent |
| Text.CountZero | internal/utilities.py:17 | `s.count(c) == 0` exactly when `c` is not in `s` |
| Text.TakeWord | internal/map_utils.py:102 | the leading word is a whitespace-free prefix of the input, ended by whitespace or the end of the input |
| Text.WordsAreWords | internal/map_utils.py:102 | every part of `s.split()` is non-empty and holds no whitespace |
| Text.ConcatWords | internal/map_utils.py:102 | `''.join(s.split())` is `s` without its whitespace |
| Text.RemoveSpacesOfWord | internal/map_utils.py:102 | removing whitespace after a whitespace-free word keeps the word in front |
| Text.RemoveSpacesHasNoSpace | internal/map_utils.py:102 | the normalised map name holds no whitespace |
| Text.WordsOfWord | cogs/submit_map.py:58 | a string without whitespace splits into itself alone, or into nothing when empty |
| Text.TakeWordOfWord | cogs/submit_map.py:58 | the leading word of a whitespace-free string is all of it |
| Text.SplitOn | internal/utilities.py:33 | `s.split(c)` has at least one part |
| Text.IndexOf | internal/utilities.py:33 | the position of the first `c` |
| Text.SplitOnCount | internal/utilities.py:33-34 | `s.split(c)` has one part more than `s` has `c`s |
| Text.CountSplit | internal/utilities.py:17 | the count of `c` adds up over a prefix, one character and the rest |
| Text.SplitOnCons | internal/utilities.py:33 | splitting `a + c + rest`, `a` free of `c`, yields `a` and then the parts of `rest` |
| Text.JoinAvoids | cogs/maphelp.py:25-29 | a character in neither the separator nor the parts is not in the join |
| Text.SplitOnJoin | internal/utilities.py:33 | splitting a join on its one-character separator gives the parts back when no part holds it |
| Text.DigitChar | internal/utilities.py:35 | a digit value renders as a decimal digit |
| Text.DigitValue | internal/utilities.py:35 | a digit's value is below 10 |
| Text.DigitRoundTrip | internal/utilities.py:35 | reading a rendered digit gives the digit back |
| Text.NatToString | internal/pb_utils.py:18 | `str(n)` is a non-empty string of decimal digits |
| Text.NatToStringValue | internal/pb_utils.py:18 | reading `str(n)` back as decimal gives `n` |
| Text.Strip | internal/utilities.py:35 | `str.strip()` never lengthens the string |
| Text.StripStart | internal/utilities.py:35 | stripping the front never lengthens and leaves a whitespace-free string unchanged |
| Text.StripEnd | internal/utilities.py:35 | stripping the back never lengthens and leaves a whitespace-free string unchanged |
| Text.ParseIntOfNat | internal/utilities.py:37 | `int(str(n)) == n` |
| Text.ParseFloatOfNat | internal/utilities.py:35 | `float(str(n)) == n` |
| Text.ParseFloatOfDecimal | internal/utilities.py:35-37 | `float("w.f")` is w plus f over the matching power of ten, so "23.45" reads as 23.45 |
| Text.ParseFloatOfNegated | internal/pb_utils.py:64-67 | `float("-" + str(n)) == -n`, so a negative record is read as negative |
| Text.RegexEscape | cogs/view_personal_best.py:56 | `re.escape` never shortens and keeps every ordinary character |
| Text.EscapeRoundTrip | cogs/view_personal_best.py:56 | the escaped pattern matches exactly the literal text: unescaping gives the argument back |
| Common.Take | cogs/viewpersonalbest.py:53 | `.limit(n)` yields the first `min(n, len)` rows, in order |
| Common.CeilDiv | cogs/mapsearch.py:113 | `ceil(n / k)`: the least `r` with `r * k >= n` |
| Common.CeilDivOne | cogs/mapsearch.py:113 | up to one page of rows needs exactly one page |
| Common.CeilDivStep | cogs/mapsearch.py:113 | one more full page of rows adds one page |
| Common.CeilDivUnique | cogs/mapsearch.py:113 | `ceil(n / k)` is the only `r` with `(r - 1) k < n <= r k` |
| Common.ChunkAt | cogs/mapsearch.py:114-118 | page k of the pages of n rows is the slice from `n k` of at most n rows |
| Common.ChunksCover | cogs/mapsearch.py:113-117 | cutting rows into pages keeps every row once and in order, gives `ceil(n / size)` pages, none empty, all but the last full |
| Common.ChunksFlatten | cogs/mapsearch.py:113-117 | the pages concatenate back to the rows |
| Common.ChunksCount | cogs/mapsearch.py:113-122 | the number of pages is `ceil(rows / size)` |
| Common.ChunksSizes | cogs/mapsearch.py:113-117 | every page holds 1 to `size` rows and all but the last hold `size` |
| Common.ChunksAppend | cogs/mapsearch.py:115-117 | adding a page after `q` full pages appends that page |
| Common.FlattenAppend | cogs/mapsearch.py:116 | concatenating pages plus one more appends that page |
| Common.FlattenConcat | cogs/mapsearch.py:116 | concatenation distributes over joining page lists |
| Common.Dedupe | cogs/submit_personal_best.py:63-71 | the keys of the `level_checker` dict: the same elements as the input, never more of them |
| Common.DedupeOrdered | cogs/submit_personal_best.py:63-71 | no key twice, and the keys are ordered by first occurrence |
| Common.FirstIndex | cogs/viewpersonalbest.py:102-112 | the position of the first occurrence |
| Common.FirstIndexOfPrefix | cogs/viewpersonalbest.py:102-112 | the first occurrence inside a prefix is the first occurrence overall |
| Common.FirstRowsCount | cogs/viewpersonalbest.py:102-112 | one kept row per distinct key |
| Common.FirstRowsAreFirst | cogs/viewpersonalbest.py:102-112 | the k-th kept row is the first row carrying the k-th distinct key |
| PbUtils.CheckNegative | internal/pb_utils.py:64-72 | true exactly when the value converts to a float below zero; a value that does not convert gives false, not an error |
| PbUtils.CheckNegativeOfText | internal/pb_utils.py:64-72 | typed "-n" is negative exactly when n > 0, typed "n" never is, and non-numeric text is not |
| PbUtils.FormatTimedelta | internal/pb_utils.py:75-79 | a negative time is '-' and the rendering of its negation; any other time is its own rendering |
| PbUtils.DropLast4 | internal/pb_utils.py:60 | `s[: -4 or None]` drops the last four characters, and gives "" for shorter strings |
| PbUtils.DisplayRecord | internal/pb_utils.py:55-61 | a negative record is shown by `format_timedelta`; otherwise the clock text is cut by four characters when it has exactly one '.', and padded with ".00" when it has none |
| PbUtils.Numbered | internal/pb_utils.py:12-25 | one field per row, in order, the k-th ranked k + 1 |
| PbUtils.Boards | internal/pb_utils.py:10-29 | the "No scoreboard for CODE level LEVEL!" reply exactly when no row exists, otherwise an embed with the given title whose fields are the first ten rows numbered from 1 |
| PbUtils.BoardsNumbering | internal/pb_utils.py:12-25 | a board has at most ten fields, and each field's title carries its rank, which reads back as k + 1 |
| MapUtils.FirstNonEmpty | internal/map_utils.py:48 | `a or b or c or d` on strings is one of the four, and is empty exactly when all four are |
| MapUtils.Fields | internal/map_utils.py:56-70 | one embed field per entry, in cursor order |
| MapUtils.PagesFromTen | internal/map_utils.py:54-62 | after the first embed, embeds close every ten rows |
| MapUtils.SearchPagesCover | internal/map_utils.py:51-75 | every row is on exactly one embed, in order; the first embed holds 1 to 11 fields, later ones 1 to 10, and those between the first and the last exactly 10; a one-row result is one embed |
| MapUtils.SearchPagesAppend | internal/map_utils.py:54-62 | closing an embed at row 10, 20, ... or at the last row appends it as the next page |
| MapUtils.CloseSearchPage | internal/map_utils.py:54-62 | putting one more row on the open embed and closing it appends that embed to the pages so far |
| MapUtils.NextSearchPage | internal/map_utils.py:54-62 | an embed closed at a multiple of ten opens the next one at the following row |
| MapUtils.SameSearchPage | internal/map_utils.py:65-70 | a row that closes no embed leaves room on the open one |
| MapUtils.SearchMap | internal/map_utils.py:20-85 | an unknown map type is refused with its message first; otherwise a map name without a pretty name raises KeyError, no results give "Nothing exists for X!", and results give the pages of their fields under the title `map_name or creator or map_code or map_type` |
| MapUtils.CollectPages | internal/map_utils.py:49-75 | the loop reads every row and builds exactly the search pages of the fields, or stops with the first map name that has no pretty name |
| MapUtils.NormalMapQuery | internal/map_utils.py:88-107 | the name is normalised, and the upper-cased type is queried exactly when a type is given |
| MapUtils.LowerKeepsNoSpace | internal/map_utils.py:102 | lower-casing introduces no whitespace |
| MapUtils.RemoveCharKeeps | internal/map_utils.py:102 | removing a character keeps a string free of whitespace and of upper case |
| MapUtils.NormalNameShape | internal/map_utils.py:102 | the normalised name holds no whitespace, apostrophe, colon or upper-case letter |
| MapUtils.NormalNameIdempotent | internal/map_utils.py:102 | normalising a normalised name changes nothing |
| MapUtils.MapEditChecks | internal/map_utils.py:138-155 | 1 exactly when the map exists, the author posted it and holds a whitelisted role; then no message; on 0 the reason, "CODE does not exist." for a missing map and the permission message for a found one |
| MapUtils.MapEditChecksIntended | internal/map_utils.py:147-153 | the corrected check: 1 exactly when the map exists and the author posted it or holds a whitelisted role, with the same messages |
| MapUtils.MapEditConfirmation | internal/map_utils.py:125-135 | the message shows the edited, not edited or timed-out text, the document is committed only on True, and the reactions are cleared in every case |
| MapSearch.CogCheck | cogs/mapsearch.py:16-18 | True in the map channel; anywhere else the check returns None, which refuses the command |
| MapSearch.Turn | cogs/mapsearch.py:46-78 | from a page in range, either arrow leads to a page in range |
| MapSearch.TurnIsCyclic | cogs/mapsearch.py:46-78 | the arrows move round a cycle of `total_pages` pages: right goes to the next page and wraps from the last to the first, left goes back and wraps from the first to the last |
| MapSearch.Run | cogs/mapsearch.py:38-82 | the pager always ends on a page in range, and its last action is clearing the reactions |
| MapSearch.RightsWrapAround | cogs/mapsearch.py:46-54 | k right arrows by the author move k pages forward round the cycle |
| MapSearch.RightsFromFirstPage | cogs/mapsearch.py:46-78 | from page 1, `total - 1` right arrows reach the last page and one more wraps back to page 1 |
| MapSearch.RunSkips | cogs/mapsearch.py:31-35 | a reaction that is not one of the author's arrows changes nothing |
| MapSearch.Turnpage | cogs/mapsearch.py:46-78 | one arrow moves to the page `Turn` gives, shows that page's text, and removes only that user's reaction |
| MapSearch.Pages | cogs/mapsearch.py:21-82 | the pager shows page 1, adds both arrows, follows the author's arrows until the time-out, and ends showing the page `Run` reaches, with its actions in order and no reactions left |
| MapSearch.TableRows | cogs/mapsearch.py:116 | `get_string(start, end)` never shows more rows than the table has |
| MapSearch.SlicesAsWritten | cogs/mapsearch.py:113-118 | the loop as written builds `ceil(rows / 10)` pages |
| MapSearch.SliceTableAsWritten | cogs/mapsearch.py:114-118 | the loop as written, with `end = start + 9`, builds exactly `SlicesAsWritten` |
| MapSearch.SlicesAsWrittenLoseRow | cogs/mapsearch.py:114-118 | with 11 rows the pages as written show rows 0-8 and 10: row 9 is never shown |
| MapSearch.SliceTable | cogs/mapsearch.py:114-118 | with `end = start + 10` the loop builds exactly the pages of ten rows |
| MapSearch.SlicesStep | cogs/mapsearch.py:115-118 | one turn of the slicing loop takes the next page of ten |
| MapSearch.Tabulate | cogs/mapsearch.py:111-128 | no rows give the fixed text, and only then; up to ten rows give one page with every row; more give `ceil(rows / 10)` pages, exactly the nine-row slices the loop as written cuts |
| MapSearch.SlicesAsWrittenDropTenth | cogs/mapsearch.py:114-118 | the pages as written are the pages of ten rows, each with its tenth row dropped |
| MapSearch.NewestSkip | cogs/mapsearch.py:98-101 | the skip is defined exactly when at least `NEWEST_MAPS_LIMIT` maps are stored, and then it is the store count minus the limit |
| MapSearch.NinSelected | cogs/mapsearch.py:99-101 | a `$nin` filter keeps exactly the maps whose field holds none of the listed values; a field the document does not have matches |
| MapSearch.MapTypeFilterSelectsAll | cogs/mapsearch.py:99-101 | `{"map_type": {"$nin": ["NOSTALGIA"]}}` selects every stored map, since MapData has no `map_type` field |
| MapSearch.NostalgiaPassesMapTypeFilter | cogs/mapsearch.py:99-101 | a NOSTALGIA map passes the `map_type` filter, and only a filter on `type` would drop it |
| MapSearch.Newest | cogs/mapsearch.py:93-128 | the query is the `map_type` filter; with fewer stored maps than the limit the command raises ValueError; otherwise it lists the last `NEWEST_MAPS_LIMIT` stored maps, NOSTALGIA ones included, on one page under "Latest Maps" |
| MapSearch.Creator | cogs/mapsearch.py:138-172 | the creator is matched as a case-insensitive pattern; a pattern that does not compile raises, and only then; otherwise "No maps from X!" is sent exactly when there is no match, up to ten matches form one page under the capitalised name, and more form `ceil(n / 10)` nine-row slices as written |
| MapSearch.MapCode | cogs/mapsearch.py:182-201 | the upper-cased code is looked up; every match goes in one untitled table, never paged, and "No maps CODE!" is sent exactly when there is none |
| MapSearch.TypeListing | cogs/mapsearch.py:211-275 | `megamap` and `multimap` never raise; they send "No Megamaps!" / "No Multimaps!" exactly when there is no map of their type, show up to ten maps on one page under their title, and more as `ceil(n / 10)` nine-row slices as written |
| MapSearchTypes.CogCheck | cogs/map_search_types.py:34-37 | True in the map channel or in a direct message; None anywhere else |
| MapSearchTypes.TypeCommandsCoverTypes | cogs/map_search_types.py:39-146 | every type command queries a map type, no two query the same type, and with `framework`, `megamap` and `multimap` they cover every map type |
| MapSearchTypes.RunTypeCommand | cogs/map_search_types.py:44-146 | a type command queries its type, never reports an unknown type, raises KeyError exactly when some listed map has no pretty name, says "Nothing exists for TITLE!" exactly when no map has the type, and otherwise pages the maps' fields under its title |
| MapSearchTypes.Framework | cogs/map_search_types.py:228-232 | maps of the FRAMEWORK type or name: KeyError exactly when one has no pretty name, "Nothing exists" exactly when there is none, otherwise paged under "Frameworks" |
| MapSearchTypes.NewestSkip | cogs/map_search_types.py:176-180 | the skip leaves exactly `min(count, NEWEST_MAPS_LIMIT)` maps, and is 0 up to the limit |
| MapSearchTypes.NewestSkipAgrees | cogs/map_search_types.py:176-180 | the clamped skip agrees with the older one wherever that is defined, and is 0 where the older one fails |
| MapSearchTypes.NewestQuery | cogs/map_search_types.py:161-169 | no type queries every document, a type queries that type |
| MapSearchTypes.NewestOfEmptyType | cogs/map_search_types.py:161 | with no type the query is empty, so NOSTALGIA maps are not excluded |
| MapSearchTypes.NewestMaps | cogs/map_search_types.py:153-190 | an unknown type is refused with its message; otherwise "No latest maps!" exactly when nothing matches, or an embed of exactly the last `min(count, NEWEST_MAPS_LIMIT)` matching maps in storage order |
| MapSearchTypes.NewestFields | cogs/map_search_types.py:176-186 | one field per shown map, or the first map name without a pretty name |
| MapSearchTypes.NewestAreLast | cogs/map_search_types.py:176-180 | the shown maps are the last `min(count, NEWEST_MAPS_LIMIT)` in storage order |
| MapSearchTypes.CreatorSearch | cogs/map_search_types.py:196-199 | the creator is escaped, so the pattern stands for the literal text, matched case-insensitively; KeyError exactly when a match has no pretty name, "Nothing exists" exactly when there is none, otherwise the matches are paged under the capitalised name |
| MapSearchTypes.MapCodeSearch | cogs/map_search_types.py:206-221 | the upper-cased code is looked up; "CODE does not exist!" exactly when nothing matches, otherwise only the last match is shown |
| MapHelp.CogCheck | cogs/maphelp.py:10-15 | True in the map channel and the map-submission channel; None anywhere else |
| MapHelp.Maps | cogs/maphelp.py:25-29 | the loop sends exactly the code block of the post built from ALL_MAP_NAMES |
| MapHelp.MapsPostLines | cogs/maphelp.py:26-28 | the post holds exactly one line per alias group, in order, each holding the group's aliases joined by " \| ", and nothing after the last newline |
| MapHelp.LinesCons | cogs/maphelp.py:27-28 | the lines are the first group's line followed by the lines of the rest |
| MapHelp.Lines | cogs/maphelp.py:28 | one line per group |
| MapHelp.MapsListsEveryGroup | cogs/maphelp.py:25-29 | for the bot's table, the `maps` post lists every alias group on its own line |
| MapHelp.MaptypesListsEveryType | cogs/maphelp.py:36-37 | the `maptypes` text opens with "Map types:" and a fence and closes with a fence, and the lines between the fences are exactly the map types, in order |
| Constants.CanonicalNamesArePretty | internal/constants.py:87-161 | every alias group is non-empty and its first alias, the name stored in the database, has a display name in PRETTY_NAMES |
| Constants.AliasesAreLowerAlnum | internal/constants.py:50-84 | every alias is lower-case ASCII letters and digits, the form a normalised map name takes |
| Constants.AliasesDistinct | internal/constants.py:50-123 | no alias belongs to two groups, so an alias names one map |
| Constants.FirstGroupsApart | internal/constants.py:87-105 | the aliases of the first 18 groups occur in no other group |
| Constants.MiddleGroupsApart | internal/constants.py:106-114 | the aliases of the groups from Necropolis to Route 66 occur in no other group |
| Constants.LastGroupsApart | internal/constants.py:115-123 | the aliases of the groups from Temple of Anubis on occur in no other group |
| Constants.TypesDistinctUpper | internal/constants.py:1-15 | the map types are distinct and upper case |
| LegacyMapSubmission.GroupIndex | cogs/submitmap.py:19-21 | the loop stops at the first group holding the name, and runs to the end when none does |
| LegacyMapSubmission.MapNameConverter | cogs/submitmap.py:18-23 | a name converts exactly when some alias group holds it, and then to a name with a display name; otherwise False |
| LegacyMapSubmission.ConverterOfAlias | cogs/submitmap.py:18-23 | every alias converts to the first name of its own group |
| LegacyMapSubmission.ConverterIdempotent | cogs/submitmap.py:18-23 | converting a converted name gives it back |
| LegacyMapSubmission.ConvertedNameIsLower | cogs/submitmap.py:67-80 | only a lower-case alias converts, so the later `map_name.lower()` changes nothing |
| LegacyMapSubmission.CheckCode | cogs/submitmap.py:58-66 | the code passes exactly when all its characters are ASCII letters or digits |
| LegacyMapSubmission.CheckTypes | cogs/submitmap.py:73-78 | the types pass exactly when every one is a map type |
| LegacyMapSubmission.Submitmap | cogs/submitmap.py:45-134 | the code, name and type checks refuse in that order with their messages; a taken code is refused; otherwise the author is asked, the notice shows the answer, and the submission is committed only on True, with the upper-cased code, canonical name, upper-cased types and the author as poster |
| LegacyMapSubmission.AskToSubmit | cogs/submitmap.py:116-131 | the author is asked on a fresh message, which ends showing the notice for the answer with no reactions left, and the submission is committed exactly when the answer is True |
| LegacyMapSubmission.NewRuleIsStricter | internal/map_utils.py:147-153 | the AND rule of `map_edit_checks` admits only members the older OR rule (cogs/submitmap.py:145-149) admits; a poster without a whitelisted role, and a whitelisted member who did not post the map, are admitted only by the older one |
| LegacyMapSubmission.IntendedRuleIsOlderRule | internal/map_utils.py:147 | the rule the comment describes is exactly the older cog's OR rule |
| LegacyMapSubmission.Deletemap | cogs/submitmap.py:141-186 | "CODE does not exist." unless exactly one map has the code; anyone but the poster or a whitelisted member gets the permission message; a stored map name with no pretty name raises KeyError before anything is asked; otherwise the member is asked, and the map is deleted exactly when they confirm |
| LegacyMapSubmission.Editdesc | cogs/submitmap.py:192-234 | with exactly one map and the OR rule met, a stored map name with no pretty name raises KeyError before anything is asked; otherwise the map with only its description replaced is committed exactly on confirmation; in every other case nothing is sent and nothing is written |
| LegacyMapSubmission.Edittypes | cogs/submitmap.py:240-289 | unknown types are refused first; then as `editdesc`, the KeyError included, replacing only the types with the upper-cased words |
| LegacyMapSubmission.StoredTypesAreKnown | cogs/submitmap.py:72-78 | the types stored are map types, one per word of the argument |
| LegacyMapSubmission.CogCheck | cogs/submitmap.py:31-33 | True in the map-submission channel, None anywhere else; cogs/submit_map.py:23-26 is the same check |
| MapSubmission.CodePatternCases | cogs/submit_map.py:41 | `^[a-zA-Z0-9]+$` accepts only non-empty codes of letters and digits, allowing one trailing newline, and never the empty code |
| MapSubmission.CheckCodePattern | cogs/submit_map.py:41 | the character loop accepts exactly what the pattern matches |
| MapSubmission.ShortTypesAccepted | cogs/submit_map.py:54-66 | a short type name is stored expanded, as a known type, where the older cog refuses it |
| MapSubmission.SubmittedTypesExpandKnown | cogs/submit_map.py:58-66 | one stored type per word, and a word that already is a map type is stored as it is |
| MapSubmission.Submitmap | cogs/submit_map.py:38-104 | the code pattern, the lower-cased name and the expanded types are checked in that order with their messages; a taken code gives "CODE already exists!"; otherwise the author is asked and the submission is committed only on True |
| MapSubmission.Deletemap | cogs/submit_map.py:110-134 | nothing is asked unless `map_edit_checks` passes; `map_submit_embed` then raises KeyError for a map name with no pretty name; otherwise the map is then deleted exactly when the author confirms, and the message shows the answer |
| MapSubmission.Editdesc | cogs/submit_map.py:140-157 | after `map_edit_checks` passes, an unnamed map raises KeyError in `map_submit_embed`; otherwise the map with only its description replaced is committed exactly on confirmation |
| MapSubmission.Edittypes | cogs/submit_map.py:163-189 | the permission check comes before the type check, and `map_submit_embed`'s KeyError after both; then the map with only its expanded types replaced is committed exactly on confirmation |
| MapSubmission.EditcodeAsWritten | cogs/submit_map.py:195-216 | as written: only the new code's format is checked, a missing map raises, an unnamed map raises KeyError, and otherwise the map with the new code is committed on confirmation whoever asks |
| MapSubmission.EditcodeIgnoresPermission | cogs/submit_map.py:195-216 | as written, a member who neither posted the map nor holds a whitelisted role gets its code changed, though `map_edit_checks` refuses them |
| MapSubmission.EditcodeCheckedNeedsPermission | cogs/submit_map.py:191-216 | with its siblings' checks, `editcode` commits only for the poster with a whitelisted role, only to a free code of the right format |
| MapSubmission.Editcode | cogs/submit_map.py:191-216 | with `map_edit_checks` and a check that the new code is free: a bad format is refused, an unnamed map raises KeyError, the author is asked only when every check passes, and the map with the new code is committed exactly on confirmation |
| PersonalBestSubmission.CogCheck | cogs/submit_personal_best.py:27-30 | True in the record channel, None anywhere else; cogs/submitpersonalbest.py:16-18, cogs/viewpersonalbest.py:16-18 and cogs/verification.py:16-18 are the same check |
| PersonalBestSubmission.UpperLevels | cogs/submit_personal_best.py:70 | the upper-cased level of each row, in row order |
| PersonalBestSubmission.CollectLevels | cogs/submit_personal_best.py:63-71 | the `level_checker` keys: each upper-cased level once, in order of first appearance |
| PersonalBestSubmission.CommittedRecord | cogs/submit_personal_best.py:89-153 | a committed submission holds the new time, is unverified, points at the command message and the new hidden message and carries the author's name; an existing record is kept as the same document, code, level and poster and only a strictly faster time replaces it; a new one gets the upper-cased code and level and the author as poster |
| PersonalBestSubmission.EqualTimeRefused | cogs/submit_personal_best.py:90-92 | a time equal to the stored one is refused like a slower one |
| PersonalBestSubmission.RankLinesFind | cogs/submit_personal_best.py:159-174 | with unique keys, the rank walk reports exactly the 1-based place of the submitted document among the top rows, or nothing when it is not there |
| PersonalBestSubmission.Ranks | cogs/submit_personal_best.py:167-174 | the loop over the enumerated rows sends exactly the rank lines |
| PersonalBestSubmission.Accept | cogs/submit_personal_best.py:124-174 | the old hidden message is deleted exactly when it can be fetched, a new one is posted, the updated document is committed once, the document ends holding exactly the accepted fields, the author's message keeps its text and gains only the two verification emoji, and the rank lines are those of the top ten |
| PersonalBestSubmission.Submitpb | cogs/submit_personal_best.py:44-183 | a bad code is refused first; an unparsable time raises; None or zero is "Invalid time."; a level that does not compile as a pattern raises re.error; a time that does not beat the author's record is refused; otherwise the author is asked, and only on True is the record committed, the hidden message replaced, the emoji added and the rank reported; on any other answer nothing is written; the author's message keeps its text, and its only actions are the two emoji on True |
| PersonalBestSubmission.AskToConfirm | cogs/submit_personal_best.py:121-183 | the question ends showing the notice for the answer with no reactions left, and the accepted branch runs exactly on True; on any other answer the document and the author's message are untouched, and the author's message never changes its text |
| PersonalBestSubmission.Deletepb | cogs/submit_personal_best.py:190-244 | the lookup uses the author's name when none is given; a level that does not compile as a pattern raises re.error; a missing record and a member who is not the poster with a whitelisted role are refused; otherwise the record is deleted exactly on confirmation |
| LegacyPersonalBestSubmission.CollectLevelSet | cogs/submitpersonalbest.py:46-53 | the `level_checker` set: exactly the stored level names of the rows read |
| LegacyPersonalBestSubmission.CommittedAgrees | cogs/submitpersonalbest.py:54-173 | the older cog commits what the newer one commits, except that a new document keeps the level as typed; an update only ever lowers the time |
| LegacyPersonalBestSubmission.Submitpb | cogs/submitpersonalbest.py:30-198 | a bad code is refused first and an unparsable time raises; None or zero, or two or more matching records, send nothing; a time that does not beat the single match is refused; otherwise the author is asked, and only on True is the record committed, the hidden message replaced, the emoji added and the rank reported; the author's message keeps its text, and its only actions are the two emoji on True |
| LegacyPersonalBestSubmission.SaveAccepted | cogs/submitpersonalbest.py:93-173 | the accepted branch commits the new document or the updated match once; the old hidden message is dropped only for an update whose message can be fetched; the author's message keeps its text and gains only the two verification emoji |
| LegacyPersonalBestSubmission.DeleteRuleTightened | cogs/submitpersonalbest.py:223-227 | whoever may delete under the newer AND rule could delete under this OR rule, and a poster without a whitelisted role is refused only by the newer one |
| LegacyPersonalBestSubmission.Deletepb | cogs/submitpersonalbest.py:205-256 | the lookup uses the exact level and the author's name when none is given; anything but exactly one match is "might not exist"; a member who is neither the poster nor whitelisted gets "You cannot delete that!"; otherwise the record is deleted exactly on confirmation |
| PersonalBestViews.CogCheck | cogs/view_personal_best.py:33-38 | the cog answers in the record channel or in a direct message, and is silent (falsy) anywhere else |
| PersonalBestViews.CodeIndex | cogs/view_personal_best.py:76 | `embed_dict.get(code)`: the position of the first group with that code, or the number of groups when no group has it |
| PersonalBestViews.Grouped | cogs/view_personal_best.py:58-81 | the grouping of every record by code is empty exactly when the cursor is |
| PersonalBestViews.GroupedCover | cogs/view_personal_best.py:58-81 | one group per map code, in the order the codes first appear on the cursor; each group holds exactly that code's record lines in cursor order, under that code's heading |
| PersonalBestViews.GroupRecords | cogs/view_personal_best.py:58-81 | the loop raises KeyError exactly when some stored map name has no pretty name; otherwise it yields the grouping `Grouped` |
| PersonalBestViews.GroupFieldsKeepText | cogs/view_personal_best.py:88-104 | a group's fields keep its text: one field holds all of it, or two fields over 1024 characters hold its lines split in half, in order, the halves differing by at most one line |
| PersonalBestViews.PagesOfEach | cogs/view_personal_best.py:87-107 | each embed holds exactly the fields of its run of groups |
| PersonalBestViews.FieldPagesCover | cogs/view_personal_best.py:83-107 | ceil(groups / 3) embeds, each built from one to three whole groups, the groups in order across the embeds; at least one embed when there is any group |
| PersonalBestViews.ThirdOfPage | cogs/view_personal_best.py:105 | `(i + 1) % 3 == 0` closes the open embed exactly at its third group |
| PersonalBestViews.BuildPages | cogs/view_personal_best.py:83-107 | the `enumerate` loop, which closes an embed after every third group and after the last one, yields exactly the embeds `FieldPages` describes |
| PersonalBestViews.PbQuery | cogs/view_personal_best.py:48-56 | with a name, a case-insensitive pattern whose unescaped text is the name as typed |
| PersonalBestViews.Pb | cogs/view_personal_best.py:44-113 | `pb`: the query is that of the name or of the author; a missing pretty name raises KeyError; no records says "Nothing exists for NAME!"; otherwise the embeds, titled with the name, are the pages of the groups; with every map titled and some record found, pages are always shown |
| PersonalBestViews.ExactLevel | cogs/view_personal_best.py:127-129 | the pattern is anchored at both ends and its escaped middle reads back as the level as typed |
| PersonalBestViews.Scoreboard | cogs/view_personal_best.py:121-131 | the code is upper-cased and the level matched exactly, ignoring case; no entries gives the scoreboard refusal, otherwise the numbered top ten under the scoreboard title |
| PersonalBestViews.Leaderboard | cogs/view_personal_best.py:139-150 | as `scoreboard` with verified records only and the level upper-cased before it reaches `boards` |
| PersonalBestViews.LevelFields | cogs/view_personal_best.py:175-179 | one field per record: "Level LEVEL - NAME" with its record |
| PersonalBestViews.WorldRecordIsFirstPerLevel | cogs/view_personal_best.py:165-179 | the `level_checker` listing has one record per upper-cased level, in the order the levels first appear, each the first record of its level; no two listed records share a level and every level on the cursor is listed |
| PersonalBestViews.WorldRecordIsFastest | cogs/view_personal_best.py:167-173 | with the cursor sorted by time within each level, the listed record of a level is at least as fast as every record of that level |
| PersonalBestViews.FirstOfEachLevel | cogs/view_personal_best.py:165-179 | the `level_checker` loop yields the fields of the first record of each upper-cased level, and `exists` is set exactly when there was any record |
| PersonalBestViews.Worldrecord | cogs/view_personal_best.py:157-209 | `worldrecord`: the verified records of the code, or of the exact level as well; no record says "No world record for ..."; with no level the fields are the first record of each level and no url; with a level, the fastest record's name, record and url under the level's title |
| PersonalBestViews.Levels | cogs/view_personal_best.py:216-241 | `levels`: the distinct upper-cased level names of the first thirty records, in order, joined with ", "; no record says "No level names found for CODE!" |
| LegacyPersonalBestViews.PbQuery | cogs/viewpersonalbest.py:24-28 | the older `pb` filters on the upper-cased code, on the name (the author's when none is given) and on the level exactly as typed |
| LegacyPersonalBestViews.Pb | cogs/viewpersonalbest.py:28-36 | only a unique matching document is shown, with its level, record, name, verified mark and url; none or two or more say "Personal best doesn't exist." |
| LegacyPersonalBestViews.Positions | cogs/viewpersonalbest.py:53-56 | one row per entry in cursor order, the `count` column running 1, 2, ..., with the entry's record, name and verified mark |
| LegacyPersonalBestViews.RankTable | cogs/viewpersonalbest.py:48-60 | the ranking loop over at most ten entries: nothing posted and the refusal said exactly when there were no entries, otherwise the positions table under the title |
| LegacyPersonalBestViews.PositionsAgreeWithBoards | cogs/viewpersonalbest.py:53-56 | the position column reads back as the rank, and each row carries the same record, name and mark as the newer cog's numbered field for that entry (internal/pb_utils.py:12-25) |
| LegacyPersonalBestViews.Scoreboard | cogs/viewpersonalbest.py:45-60 | the upper-cased code and the level as typed, case-sensitive; "No scoreboard for ..." when nothing matches, otherwise the top ten under "CODE: ... TOP 10 VERIFIED/UNVERIFIED RECORDS" |
| LegacyPersonalBestViews.Leaderboard | cogs/viewpersonalbest.py:69-87 | as `scoreboard` with verified documents only and "No leaderboard for ..." when nothing matches |
| LegacyPersonalBestViews.WorldRecordsFirstPerLevel | cogs/viewpersonalbest.py:101-112 | among the first twenty records, one row per stored level name (case-sensitive), each the first record of its level, levels in the order they first appear, with no level twice and every level listed |
| LegacyPersonalBestViews.FirstOfEachLevel | cogs/viewpersonalbest.py:104-112 | the `level_checker` loop yields the rows of the first record of each stored level name |
| LegacyPersonalBestViews.Worldrecord | cogs/viewpersonalbest.py:95-127 | the verified records of the code, or of the exact level too; no record says "No world record for ..."; with no level the first twenty records by time give one row per level; with a level, the fastest record and its url |
| Verification.Verdict | cogs/verification.py:35-43 | the verified emoji means verified, the not-verified emoji means rejected, and any other emoji carries no verdict |
| Verification.Reviewed | cogs/verification.py:35-43 | a reaction changes only the record's `verified` flag, and only for a verdict emoji |
| Verification.ReviewedLastWins | cogs/verification.py:35-43 | the latest verdict wins, a repeated reaction changes nothing, and every field other than `verified` survives any two reactions |
| Verification.OnRawReactionAdd | cogs/verification.py:21-45 | the bot's own reactions, members without a whitelisted role and messages with no matching record are ignored with nothing changed; a hidden message that cannot be fetched raises before anything changes; otherwise the hidden message is deleted, a verdict emoji commits the record with only `verified` set and notifies the submitter with the moderator's name and the record, and the reactions are cleared; the reacted message's text never changes |
| Verification.OnRawMessageDelete | cogs/verification.py:48-61 | deleting a record's message deletes the record whatever becomes of its hidden message, which is deleted only when it can be fetched; a message with no record changes nothing |
| TournamentUtils.CategorySort | internal/tournament_utils.py:19-30 | a message in the time-attack, mildcore, hardcore or bonus channel gets that category, checked in that order, and any other channel gets None |
| TournamentUtils.DataCategory | internal/tournament_utils.py:39-46 | the bonus collection is read for every category other than the first three, so an unknown category reads the bonus board |
| TournamentUtils.FindMember | internal/tournament_utils.py:52 | `discord.utils.find`: a member found has the poster's id, and None means no member has it |
| TournamentUtils.Ranked | internal/tournament_utils.py:50-55 | one field per entry in record order, ranked 1, 2, ..., each with the member found for its poster and its record |
| TournamentUtils.TenthOfPage | internal/tournament_utils.py:56 | `(count + 1) % 10 == 0` closes the open embed exactly at its tenth entry |
| TournamentUtils.TournamentBoards | internal/tournament_utils.py:33-66 | with the count equal to the cursor's length, the loop closes an embed after every tenth field and after the last one, so the embeds are the ranked fields ten to a page under the category's title; no entries says "No times exist for the category tournament!" in lower case |
| TournamentUtils.TournamentPagesCover | internal/tournament_utils.py:50-61 | every ranked entry lands on exactly one page, in order; there are ceil(entries / 10) pages, each but the last holding ten fields and the last one to ten |
| Config.GetConfigVar | main.py:41-54 | the environment wins over the file and the file over the fallback; KeyError exactly when `error` is set and nothing was found; without `error` the value found, None included |
| Config.MissingGivesNone | main.py:47-52 | a key in neither the environment nor the file gives None without `error`, and raises KeyError with it |
| Config.NullKeyHidesFallback | main.py:47 | a file key holding null is found, so it hides the fallback and gives None |
| DataObjects.PyIndex | venv/Lib/site-packages/umongo/data_objects.py:19-26 | Python's list indexing: an index is valid exactly from -n to n - 1, and a negative one counts from the end |
| DataObjects.ReversedTwice | venv/Lib/site-packages/umongo/data_objects.py:49-52 | reversing a list twice gives it back |
| DataObjects.InsertSorted | venv/Lib/site-packages/umongo/data_objects.py:54-57 | inserting into a list sorted by key keeps it sorted |
| DataObjects.SortBy | venv/Lib/site-packages/umongo/data_objects.py:54-57 | `list.sort(key=...)`: sorted by the key, and a permutation of the list |
| DataObjects.DeserializeAll | venv/Lib/site-packages/umongo/data_objects.py:60 | the list comprehension succeeds exactly when every object deserialises, and then holds each deserialised object in order |
| DataObjects.AnyModifiedOfObjects | venv/Lib/site-packages/umongo/data_objects.py:73 | on data objects, `any(obj.is_modified() ...)` is defined and true exactly when one of them is modified |
| DataObjects.AnyModifiedWitness | venv/Lib/site-packages/umongo/data_objects.py:73 | a true `any` names a modified data object ahead of every value that is not a data object |
| DataObjects.List.constructor | venv/Lib/site-packages/umongo/data_objects.py:14-17 | a new List holds its items and its inner field and is not modified |
| DataObjects.List.IsModified | venv/Lib/site-packages/umongo/data_objects.py:69-74 | a List with its flag set is modified; without it, one that is empty or does not start with a data object is not |
| DataObjects.List.SetItem | venv/Lib/site-packages/umongo/data_objects.py:19-22 | `lst[key] = obj`: an object that does not deserialise raises ValidationError and a bad index IndexError, with nothing changed; otherwise only that position changes, to the deserialised object, and the List is marked modified |
| DataObjects.List.DelItem | venv/Lib/site-packages/umongo/data_objects.py:24-26 | `del lst[key]`: a valid index removes exactly that element and marks the List modified; a bad one raises IndexError with nothing changed |
| DataObjects.List.Append | venv/Lib/site-packages/umongo/data_objects.py:28-32 | `append`: the deserialised object goes last and the List is marked modified; an object that does not deserialise changes nothing |
| DataObjects.List.Pop | venv/Lib/site-packages/umongo/data_objects.py:34-37 | `pop(index)`: the element at the index is returned and removed and the List marked modified; an empty List or a bad index raises IndexError with nothing changed |
| DataObjects.List.Clear | venv/Lib/site-packages/umongo/data_objects.py:39-42 | `clear`: the List is empty and marked modified |
| DataObjects.List.Remove | venv/Lib/site-packages/umongo/data_objects.py:44-47 | `remove(x)`: the first element equal to x is removed and the List marked modified; an absent x raises ValueError with nothing changed |
| DataObjects.List.Reverse | venv/Lib/site-packages/umongo/data_objects.py:49-52 | `reverse`: the elements in reverse order, marked modified |
| DataObjects.List.Sort | venv/Lib/site-packages/umongo/data_objects.py:54-57 | `sort`: a sorted permutation of the elements, marked modified |
| DataObjects.List.Extend | venv/Lib/site-packages/umongo/data_objects.py:59-63 | `extend`: every object is deserialised before any is added, so a failure changes nothing; otherwise all of them go last, in order, and the List is marked modified |
| DataObjects.List.ClearModified | venv/Lib/site-packages/umongo/data_objects.py:79-83 | `clear_modified`: the flag goes down; when the first element is a data object each element is cleared in order, and the first one that is not a data object raises, leaving those before it cleared |
| DataObjects.MutationIsVisible | venv/Lib/site-packages/umongo/data_objects.py:69-71 | after any successful mutation `is_modified()` is true |
| DataObjects.ValuesModified | venv/Lib/site-packages/umongo/data_objects.py:139-141 | with no data object among the values, the values report nothing modified |
| DataObjects.ClearDict | venv/Lib/site-packages/umongo/data_objects.py:146-150 | the keys survive; with no data object among the values nothing changes, otherwise the values are cleared in key order up to the first that is not a data object, which raises |
| DataObjects.ClearValues | venv/Lib/site-packages/umongo/data_objects.py:149-150 | the loop clears the values in key order up to the first that is not a data object and leaves the rest as they were |
| DataObjects.AssignAllLookup | venv/Lib/site-packages/umongo/data_objects.py:123-130 | after `update`, a key is present exactly when it was or some entry has it; the last entry for a key wins; a key no entry has keeps its value; the keys already there keep their order in front |
| DataObjects.RemoveKey | venv/Lib/site-packages/umongo/data_objects.py:102-104 | removing a key keeps every other key in order and keeps the keys distinct |
| DataObjects.Dict.constructor | venv/Lib/site-packages/umongo/data_objects.py:90-94 | a new Dict holds its entries and its key and value fields and is not modified |
| DataObjects.Dict.IsModified | venv/Lib/site-packages/umongo/data_objects.py:136-141 | a Dict with its flag set is modified; without it, one with no data object among its values is not |
| DataObjects.Dict.SetItem | venv/Lib/site-packages/umongo/data_objects.py:96-100 | `d[key] = obj`: a key or value that does not deserialise changes nothing; otherwise the deserialised key holds the deserialised value, a new key going last, and the Dict is marked modified |
| DataObjects.Dict.DelItem | venv/Lib/site-packages/umongo/data_objects.py:102-104 | `del d[key]`: a present key is removed and the Dict marked modified; an absent one raises KeyError with nothing changed |
| DataObjects.Dict.Pop | venv/Lib/site-packages/umongo/data_objects.py:106-109 | `pop(key[, default])`: a present key is returned and removed; an absent one returns the default, or raises KeyError without one; the Dict is marked modified whenever nothing is raised |
| DataObjects.Dict.PopItem | venv/Lib/site-packages/umongo/data_objects.py:111-114 | `popitem`: the last inserted entry is returned and removed and the Dict marked modified; an empty Dict raises KeyError with nothing changed |
| DataObjects.Dict.SetDefault | venv/Lib/site-packages/umongo/data_objects.py:116-121 | `setdefault`: a known key returns its value unchanged, a new one stores and returns the object; the Dict is marked modified in both cases |
| DataObjects.Dict.Converted | venv/Lib/site-packages/umongo/data_objects.py:124-128 | the comprehension of `update` succeeds exactly when every key and value deserialises, and then holds each deserialised entry in order |
| DataObjects.Dict.Update | venv/Lib/site-packages/umongo/data_objects.py:123-130 | `update`: every entry is deserialised before any is stored, so a failure changes nothing; otherwise each entry is assigned in turn and the Dict is marked modified |
| DataObjects.Dict.ClearModified | venv/Lib/site-packages/umongo/data_objects.py:146-150 | `clear_modified`: the flag goes down and the keys stay; with no data object among the values nothing else changes, otherwise the values are cleared in key order and the first one that is not a data object raises |
| DataObjects.RefEquals | venv/Lib/site-packages/umongo/data_objects.py:179-186 | two References are equal exactly when their pk and document class are; anything that is not a document, a Reference or a DBRef is NotImplemented |
| DataObjects.RefEqualsIsEquivalence | venv/Lib/site-packages/umongo/data_objects.py:182-183 | between References, equality is reflexive, symmetric and transitive, and holds exactly for the same (class, pk) |
| DataObjects.RefEqualsDocument | venv/Lib/site-packages/umongo/data_objects.py:180-185 | a Reference equals a document of its class with its pk, and the DBRef of its collection and pk |
| MongoValues.Cleared | venv/Lib/site-packages/umongo/data_objects.py:79-83 | clearing a data object leaves it a data object that is not modified, and leaves any other value as it is |
| DataProxy.FieldNamed | venv/Lib/site-packages/umongo/data_proxy.py:96-98 | a field found by name is declared under that name, and none is found exactly when no declared field has it |
| DataProxy.FieldNamedAt | venv/Lib/site-packages/umongo/data_proxy.py:96-98 | in a well-formed schema each field is found by its own name |
| DataProxy.ClearedMap | venv/Lib/site-packages/umongo/data_proxy.py:143-147 | every entry keeps its key; data objects are cleared and other values kept |
| DataProxy.WithMissing | venv/Lib/site-packages/umongo/data_proxy.py:156-164 | `_add_missing_fields` adds exactly the declared keys that were absent and keeps every entry already there |
| DataProxy.WithMissingFills | venv/Lib/site-packages/umongo/data_proxy.py:160-164 | a declared field without an entry ends up holding its `missing` value |
| DataProxy.Decoded | venv/Lib/site-packages/umongo/data_proxy.py:57-67 | the decoded entries of a database document are under known keys of the document only |
| DataProxy.DecodedAt | venv/Lib/site-packages/umongo/data_proxy.py:59-67 | with each key once, an entry under a known key is decoded by that field under that key |
| DataProxy.Unknowns | venv/Lib/site-packages/umongo/data_proxy.py:213-221 | the entries kept aside are under keys of the document that no field declares |
| DataProxy.UnknownsAt | venv/Lib/site-packages/umongo/data_proxy.py:215-219 | with each key once, an entry under an unknown key is kept aside unchanged |
| DataProxy.FirstUnknown | venv/Lib/site-packages/umongo/data_proxy.py:59-66 | the position where a strict proxy raises: every key before it is known and the key there is not |
| DataProxy.Serialized | venv/Lib/site-packages/umongo/data_proxy.py:30-37 | the written document has exactly the entries whose serialised value is not missing, each holding its serialised value |
| DataProxy.Unserialized | venv/Lib/site-packages/umongo/data_proxy.py:46-48 | the keys that go to `$unset` are exactly those whose serialised value is missing |
| DataProxy.DocMap | venv/Lib/site-packages/umongo/data_proxy.py:57-59 | a database document with each key once, as the map it stands for |
| DataProxy.FromMongoToMongo | venv/Lib/site-packages/umongo/data_proxy.py:30-69 | reading a database document and writing it back gives the same document, in either kind of proxy, when each field's conversions undo each other and a field left out stores nothing |
| DataProxy.SplitUpdate | venv/Lib/site-packages/umongo/data_proxy.py:43-50 | the loop splits the modified fields' keys into `$set`, with the serialised values, and `$unset`, the keys whose value serialises to missing |
| DataProxy.SerializeAll | venv/Lib/site-packages/umongo/data_proxy.py:30-37 | the `_to_mongo` loop writes exactly the entries whose serialised value is not missing |
| DataProxy.RequiredError | venv/Lib/site-packages/umongo/data_proxy.py:169-178 | a required field holding missing gets "Missing data for required field."; missing and None are otherwise skipped; any other value gets what the field's own check reports |
| DataProxy.RequiredErrors | venv/Lib/site-packages/umongo/data_proxy.py:166-178 | errors are reported only under declared field names |
| DataProxy.RequiredErrorsAt | venv/Lib/site-packages/umongo/data_proxy.py:166-178 | a field appears among the errors exactly when its own check reports it, and with those messages |
| DataProxy.RequiredErrorsNamed | venv/Lib/site-packages/umongo/data_proxy.py:166-178 | every error is under the name of a declared field |
| DataProxy.Proxy.constructor | venv/Lib/site-packages/umongo/data_proxy.py:19-23 | a new proxy holds the loaded entries, cleared, with the missing fields filled; exactly the loaded keys are marked modified and nothing is kept aside |
| DataProxy.Proxy.ClearModified | venv/Lib/site-packages/umongo/data_proxy.py:143-147 | nothing stays marked and every data object among the entries is cleared |
| DataProxy.Proxy.AddMissingFields | venv/Lib/site-packages/umongo/data_proxy.py:156-164 | each declared field without an entry gets its `missing` value, with the marks unchanged |
| DataProxy.Proxy.Load | venv/Lib/site-packages/umongo/data_proxy.py:84-93 | `load`: a failing schema load changes nothing; otherwise the entries are replaced by the loaded ones, exactly their keys are marked, and the missing fields are filled |
| DataProxy.Proxy.ReadEntries | venv/Lib/site-packages/umongo/data_proxy.py:58-67 | the `from_mongo` loop: a strict proxy raises at the first unknown key, with a message naming that key, holding the known entries before it; a non-strict one decodes every known entry and keeps every unknown one aside |
| DataProxy.Proxy.FromMongo | venv/Lib/site-packages/umongo/data_proxy.py:57-69 | `from_mongo`: a strict proxy raises exactly when the document has an unknown key, naming the first one; otherwise the entries are the decoded ones with the missing fields filled, nothing is marked, and a non-strict proxy keeps the unknown entries aside |
| DataProxy.Proxy.Get | venv/Lib/site-packages/umongo/data_proxy.py:102-104 | `get`: a KeyError exactly for an undeclared name, otherwise the entry under the field's database key |
| DataProxy.Proxy.Set | venv/Lib/site-packages/umongo/data_proxy.py:106-114 | `set`: an undeclared name raises KeyError; None is refused unless the field allows it; any other value must deserialise; on success only the field's entry changes, its key is marked, and `get` then returns the stored value |
| DataProxy.Proxy.Delete | venv/Lib/site-packages/umongo/data_proxy.py:116-120 | `delete`: an undeclared name raises KeyError; otherwise the field's entry goes back to its default, its key is marked, and `get` then returns the default |
| DataProxy.Proxy.Update | venv/Lib/site-packages/umongo/data_proxy.py:77-82 | `update`: a failing schema load changes nothing; otherwise the loaded entries overwrite and their keys are added to the marks |
| DataProxy.Proxy.ClearedIsUnmodified | venv/Lib/site-packages/umongo/data_proxy.py:143-154 | once the marks are gone and every nested data object is cleared, the proxy is not modified |
| DataProxy.Proxy.GetModifiedFields | venv/Lib/site-packages/umongo/data_proxy.py:133-141 | `get_modified_fields` reports exactly the declared names whose key is marked or holds a modified data object |
| DataProxy.Proxy.ModifiedKeysByName | venv/Lib/site-packages/umongo/data_proxy.py:133-141 | the keys of the reported names are exactly the modified keys |
| DataProxy.Proxy.IsModifiedIffModifiedKeys | venv/Lib/site-packages/umongo/data_proxy.py:133-154 | `is_modified()` holds exactly when `get_modified_fields()` reports some field |
| DataProxy.Proxy.ToMongoUpdate | venv/Lib/site-packages/umongo/data_proxy.py:39-55 | `_to_mongo_update`: None exactly when nothing is modified, otherwise the `$set` and `$unset` parts of the modified keys |
| DataProxy.Proxy.ToMongo | venv/Lib/site-packages/umongo/data_proxy.py:30-37 | `_to_mongo`, strict or not: the entries whose serialised value is not missing, plus the unknown entries of a non-strict proxy |
| DataProxy.Proxy.UpdateCoversModified | venv/Lib/site-packages/umongo/data_proxy.py:43-54 | the update writes every modified key, in `$set` or in `$unset` and never both, and nothing else |
| DataProxy.Proxy.UpdateAgreesWithDocument | venv/Lib/site-packages/umongo/data_proxy.py:30-55 | a key in `$set` has the value the full document gives it, and a key in `$unset` is absent from the full document |
| DataProxy.Proxy.RequiredValidate | venv/Lib/site-packages/umongo/data_proxy.py:166-180 | the loop over all fields collects exactly the errors `RequiredErrors` describes; an empty map means nothing is raised |
| DataProxy.Proxy.Items | venv/Lib/site-packages/umongo/data_proxy.py:184-187 | `items()`: one pair per declared field in declaration order, each its name with what `get` gives for it |
| Indexes.ExplicitKey | venv/Lib/site-packages/umongo/indexes.py:4-16 | a pair is kept when it has two elements and fails its assertion otherwise; a string with a "+", "-", "$" or "#" in front loses that one character and gets ascending, descending, text or hashed; any other string is ascending; an integer has no `startswith` |
| Indexes.ExplicitKeyOfPrefixed | venv/Lib/site-packages/umongo/indexes.py:8-15 | writing a direction prefix and reading it back gives the key and that direction, with exactly one character stripped |
| Indexes.AscendingIsDefault | venv/Lib/site-packages/umongo/indexes.py:8-16 | a key with no prefix reads the same as the key with "+" in front |
| Indexes.ExplicitKeyIdempotent | venv/Lib/site-packages/umongo/indexes.py:5-7 | a pair `explicit_key` produced comes back unchanged when given again |
| Indexes.ExplicitKeys | venv/Lib/site-packages/umongo/indexes.py:27 | the list comprehension succeeds exactly when every key does, and then yields each key's pair in order; a failure is that of one of the keys |
| Indexes.KeyEntries | venv/Lib/site-packages/umongo/indexes.py:32-33 | iterating the `key` entry: a list gives its items, a string its characters one by one, and an integer fails the iterable assertion |
| Indexes.ParseCompound | venv/Lib/site-packages/umongo/indexes.py:25-27 | a compound index keeps the number and order of its keys, with the base field's key last when there is one, and has no options |
| Indexes.ParseCompoundFails | venv/Lib/site-packages/umongo/indexes.py:25-27 | a compound index fails exactly when one of its keys does |
| Indexes.ParseDict | venv/Lib/site-packages/umongo/indexes.py:30-34 | a dict index takes every entry but `key` as its options, and the keys of its `key` entry in order |
| Indexes.ParseRejects | venv/Lib/site-packages/umongo/indexes.py:30-36 | anything other than a string, a list, a dict or an IndexModel raises TypeError, and a dict without `key` fails its assertion |
| Indexes.ParseModel | venv/Lib/site-packages/umongo/indexes.py:22-24 | an IndexModel passes through with its keys and options, plus the base field's key when there is one |

## Left out

- Discord transport is not modelled: sending, editing, embeds, timers and async scheduling. Reactions are a finite event sequence, and a time-out is a marker or the end of that sequence.
- Rendering is not modelled. This covers embed layout, PrettyTable text, `textwrap.fill`, `map_submit_embed`, the text of direct messages and hidden verification messages, and the `disputils` paginators. The model keeps only the page lists and field contents handed to them.
- MongoDB query semantics are not modelled: regex matching, sort order, numeric collation and `count_documents`. The one exception is `newest`'s `$nin` filter on map documents (MapSearch.NinSelected), where which documents match is the point. Every query is returned as a value, and its results come in as a sequence already in the asked order. `limit(n)` is a take of the first `n` rows and `skip(n)` a drop.
- MapUtils.SearchMap, MapUtils.CollectPages, MapSearchTypes.RunTypeCommand, MapSearchTypes.Framework, MapSearchTypes.NewestMaps, MapSearchTypes.CreatorSearch: require that the document count equals the number of rows the cursor yields, which the source assumes but does not check.
- TournamentUtils.TournamentBoards: requires that `data_amount` equals the number of entries the cursor yields, the same unchecked assumption.
- Floats are exact reals. `float()` and `int()` accept an optional sign, ASCII digits and one optional fraction. Exponents, `inf`, `nan`, underscores and rounding are not modelled.
- Timedelta text and `display_record`'s rendering are not modelled; the renderers are parameters (`show`, `render`, `clock`). PbUtils.FormatTimedelta and PbUtils.DisplayRecord state what is done around them: the sign, and the cut or padding of the fraction.
- `date_func`'s `strptime` call is not modelled. Utilities.DateFormat states which format is chosen but does not parse the date.
- Python's regular-expression syntax is not modelled. Whether `re.compile` accepts the unescaped user text is a boolean parameter (`compiles`, `levelCompiles`) of MapSearch.Creator, PersonalBestSubmission.Submitpb and PersonalBestSubmission.Deletepb, and the model raises re.error when it is False.
- PersonalBestViews.GroupFields: the 1024-character split recovers a group's lines with `re.findall` of three `>` lines and the rule (cogs/view_personal_best.py:91-92). The model takes that to be the group's own lines, which holds only when no level name or record text contains a newline.
- Chat.Message's `reactions` holds the bot's own arrows and marks, not the users' reactions. The `remove_reaction(emoji, user)` of MapSearch.Turnpage is recorded in the action log only.
- `is_time_format` (internal/utilities.py:9-13, internal/pb_utils.py:32-38) is a regex check and is not modelled.
- Case mapping is ASCII only. Python's Unicode `upper`, `lower` and `capitalize` are not modelled.
- Constants.CanonicalNamesArePretty: proves that every alias group's head is a key of `PRETTY_NAMES`. The converse, that every key heads a group, is not proved.
- The `PRETTY_NAMES` lookups of `submitmap` (cogs/submitmap.py:110, and `map_submit_embed` from cogs/submit_map.py:88) are of a name `map_name_converter` returned, which LegacyMapSubmission.MapNameConverter proves a key, so they cannot raise and are not modelled as a step. The lookups of a stored document's name in `deletemap`, `editdesc`, `edittypes` and `editcode` are modelled, as a `pretty` parameter and a KeyError outcome.
- `PRETTY_NAMES` lookups in the table rows of cogs/mapsearch.py (lines 106, 150, 192, 221 and 256) are not modelled. A stored name that is not a key would raise KeyError there, and those commands are modelled as if every name were a key. The newer cogs/map_search_types.py and cogs/view_personal_best.py do model that KeyError, through `pretty` parameters.
- PersonalBestViews.GroupRecords: the `cur_map` cache of the last map looked up is not modelled. The lookup is a lookup by code in a given map, so looking it up again gives the same heading.
- Whether a hidden message can be fetched, and whether the author's message still exists, are boolean parameters (`hiddenFound`). Discord's `NotFound` is not otherwise modelled.
- Concurrency is not modelled: several outstanding confirmations or paginators interleaving, or documents changed between a `find_one` and its `commit`.
- The rest of umongo is not modelled: builder.py, fields.py, abstract.py, marshmallow_bonus.py, mixin.py, expose_missing.py, validate.py and exceptions.py.
  - A field is an abstract record: `attribute`, `allow_none`, `required`, `default` and `missing`.
  - A callable `default` or `missing` is taken as the value it returns.
  - The conversions (`serialize_to_mongo`, `deserialize_from_mongo`, `_deserialize` with `_validate`, `_required_validate`) form a `Codec` parameter keyed by database key.
  - The schema's partial `load` is an `Option` parameter: None when it raises, otherwise the loaded entries keyed by database key. Its ValidationError messages are not modelled.
  - DataProxy.Proxy.Set: a Codec `deserialize` that fails (`_deserialize` or `_validate` raising) gives a ValidationError with no messages; the field's own messages are not modelled. The `null` message of a None value is modelled.
  - A nested data object is represented by its modified flag alone (`MongoValues.Value.Object`).
  - An IndexModel is its key list and its options; pymongo's own checks of the keys are not modelled.
- The proxy's `dump`, `keys`, `values`, `__repr__` and `__eq__` are not modelled, nor are `Reference.fetch` (an abstract method) and the `__repr__`s of data_objects.py. They are rendering or delegation, with no rule of their own.
- DataProxy.Proxy.constructor: models `load(data or {})` for the loaded entries it is given; the `or {}` for a missing argument is the caller's.
- DataObjects.RefEquals: `isinstance(other, self.document_cls)` (venv/Lib/site-packages/umongo/data_objects.py:180) is modelled as equality of document classes, so a document of a subclass is not modelled. Document inheritance is not modelled at all; the bot declares no document subclasses.
- DataObjects.List.Sort: `key` is an integer-valued function. Python's stability, `reverse=True` and comparisons without a key are not modelled.
- `load_config` and `run` in main.py, cogs/server.py, cogs/debug.py, internal/botclass.py, internal/database_init.py, cogs/tournament.py, tests/tests.py and the database schema files are not modelled. They are I/O, infrastructure, or declarations used here as the shapes of `MapRecord`, `PbRecord` and `TournamentRecord`.
- The test constants (internal/test_constants.py) are not modelled; the table model is the production one of internal/constants.py.

## Findings

| source | as written | input that shows it | evidently intended | confidence | as-written member | corrected member |
|---|---|---|---|---|---|---|
| cogs/mapsearch.py:114-118 | the page loop starts with `e = PT_PAGE_SIZE - 1` and passes it as PrettyTable's `end`, which is exclusive, so each page shows nine rows | 11 rows: the pages show rows 0-8 and row 10, and row 9 is never shown | `end = start + PT_PAGE_SIZE`, so each page shows ten rows and every row appears once | not executed | MapSearch.SliceTableAsWritten, MapSearch.SlicesAsWrittenLoseRow, MapSearch.SlicesAsWrittenDropTenth, MapSearch.Tabulate | MapSearch.SliceTable, Common.ChunksCover |
| cogs/mapsearch.py:98-101 | `newest` skips `count - NEWEST_MAPS_LIMIT` rows with no clamp, and a negative skip makes pymongo raise ValueError | 5 stored maps: `skip(-5)`, so the command fails instead of listing the five maps | skip `max(0, count - NEWEST_MAPS_LIMIT)`, as cogs/map_search_types.py:176-180 does | not executed | MapSearch.NewestSkip, MapSearch.Newest | MapSearchTypes.NewestSkip, MapSearchTypes.NewestSkipAgrees |
| cogs/submit_map.py:195-216 | `editcode` checks only the new code's format before overwriting `search.code`: no permission, existence or uniqueness check | a member who neither posted the map nor holds a whitelisted role runs `editcode` on it and confirms: the code is changed | the `map_edit_checks` permission rule its siblings use (help text at line 192: "Only original posters and mods"), and a new code no other map has | not executed | MapSubmission.EditcodeAsWritten, MapSubmission.EditcodeIgnoresPermission | MapSubmission.Editcode, MapSubmission.EditcodeCheckedNeedsPermission |
| internal/map_utils.py:147-153 | the comment and the edit commands' help texts ("Only original posters and mods", cogs/submit_map.py:107) allow the poster OR a whitelisted role, but the test `posted_by != author or not whitelisted` refuses everyone who is not both | a moderator who did not post the map runs `deletemap` on it: "You do not have sufficient permissions." | `posted_by != author and not whitelisted`, the older cog's rule at cogs/submitmap.py:145-149 | not executed | MapUtils.MapEditChecks, LegacyMapSubmission.NewRuleIsStricter | MapUtils.MapEditChecksIntended, LegacyMapSubmission.IntendedRuleIsOlderRule |
