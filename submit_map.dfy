/** The newer map submission cog, cogs/submit_map.py: early-return guard
    chains, the `map_edit_checks` rule (poster AND whitelisted role) for
    `deletemap`, `editdesc` and `edittypes`, and `editcode`, which checks
    only the format of the new code. */
module MapSubmission {
  import opened Common
  import opened Text
  import opened Chat
  import opened Constants
  import opened Confirmation
  import opened Documents
  import opened Utilities
  import MapUtils
  import Legacy = LegacyMapSubmission

  /** `re.match(r"^[a-zA-Z0-9]+$", s)`: one or more ASCII letters and
      digits; Python's `$` also matches before a final newline. */
  predicate MatchesCodePattern(s: string)
  {
    (|s| > 0 && AllAsciiAlnum(s))
    || (|s| > 1 && s[|s| - 1] == '\n' && AllAsciiAlnum(s[..|s| - 1]))
  }

  /** The pattern accepts exactly the non-empty letter-and-digit codes,
      with or without one trailing newline. */
  lemma CodePatternCases(s: string)
    ensures MatchesCodePattern(s) ==> |s| > 0 && forall k :: 0 <= k < |s| - 1 ==> IsAsciiAlnum(s[k])
    ensures !MatchesCodePattern("")
    ensures MatchesCodePattern(s) && '\n' !in s ==> AllAsciiAlnum(s)
  {
  }

  /** The regex test itself, one character at a time. */
  method CheckCodePattern(s: string) returns (ok: bool)
    ensures ok <==> MatchesCodePattern(s)
  {
    var end := |s|;
    if |s| > 1 && s[|s| - 1] == '\n' {
      end := |s| - 1;
    }
    if end == 0 {
      return false;
    }
    var k := 0;
    while k < end
      invariant k <= end
      invariant forall j :: 0 <= j < k ==> IsAsciiAlnum(s[j])
    {
      if !IsAsciiAlnum(s[k]) {
        assert !IsAsciiAlnum(s[..end][k]);
        return false;
      }
      k := k + 1;
    }
    assert AllAsciiAlnum(s[..end]);
    ok := true;
  }

  /** `[convert_short_types(x.upper()) for x in map_type.split()]` */
  function SubmittedTypes(mapType: string): seq<string>
  {
    seq(|Words(mapType)|, k requires 0 <= k < |Words(mapType)| => ConvertShortTypes(Upper(Words(mapType)[k])))
  }

  /** Short names are accepted now: a word whose upper-case form is a
      short name is stored expanded, as a known type, where the older cog
      stores it unexpanded and so rejects it. */
  lemma ShortTypesAccepted(mapType: string, k: nat)
    requires k < |Words(mapType)| && Upper(Words(mapType)[k]) in SHORT_TYPES
    ensures SubmittedTypes(mapType)[k] == SHORT_TYPES[Upper(Words(mapType)[k])]
    ensures SubmittedTypes(mapType)[k] in TYPES_OF_MAP
    ensures Upper(Words(mapType)[k]) !in TYPES_OF_MAP ==> !Legacy.AllKnownTypes(Legacy.LegacyTypes(mapType))
  {
    ConvertShortTypesIsTable(Upper(Words(mapType)[k]));
    assert Legacy.LegacyTypes(mapType)[k] == Upper(Words(mapType)[k]);
  }

  /** Every type that is stored is a known type even after expansion:
      expansion maps known types to themselves and aliases into the list. */
  lemma SubmittedTypesExpandKnown(mapType: string)
    ensures |SubmittedTypes(mapType)| == |Words(mapType)|
    ensures forall k :: (0 <= k < |Words(mapType)| && Upper(Words(mapType)[k]) in TYPES_OF_MAP
      ==> SubmittedTypes(mapType)[k] == Upper(Words(mapType)[k]))
  {
  }

  /** The checks `submitmap` makes before it looks for the code: the code
      pattern, the lower-cased name an alias, and the expanded types known. */
  predicate SubmissionPasses(mapCode: string, mapName: string, mapType: string)
  {
    MatchesCodePattern(mapCode) && Legacy.MapNameConverter(Lower(mapName)).Some?
    && Legacy.AllKnownTypes(SubmittedTypes(mapType))
  }

  /** The document `submitmap` builds. */
  function Submission(mapCode: string, mapName: string, mapType: string, creator: string,
                      desc: string, author: Member): MapRecord
    requires Legacy.MapNameConverter(Lower(mapName)).Some?
  {
    MapRecord(Upper(mapCode), creator, Legacy.MapNameConverter(Lower(mapName)).value, author.id,
              SubmittedTypes(mapType), desc)
  }

  /** How a command ended: a text sent, a message the author was asked to
      confirm with the answer, or an exception. */
  datatype Reply = Said(text: string) | Asked(message: Message, confirmed: Confirmed) | Raised(error: string)

  /** `submitmap(ctx, map_code, map_name, map_type, creator, desc)`;
      `existing` is the number of documents holding the upper-cased code. */
  method Submitmap(mapCode: string, mapName: string, mapType: string, creator: string, desc: string,
                   author: Member, existing: nat, msgId: int, botId: int, events: seq<Event>,
                   journal: Journal<MapRecord>)
    returns (reply: Reply)
    modifies journal
    ensures !MatchesCodePattern(mapCode) ==> reply == Said(Legacy.CODE_REJECTED)
    ensures MatchesCodePattern(mapCode) && Legacy.MapNameConverter(Lower(mapName)).None?
      ==> reply == Said(Legacy.NAME_REJECTED)
    ensures (MatchesCodePattern(mapCode) && Legacy.MapNameConverter(Lower(mapName)).Some?
      && !Legacy.AllKnownTypes(SubmittedTypes(mapType))) ==> reply == Said(Legacy.TYPE_REJECTED)
    ensures SubmissionPasses(mapCode, mapName, mapType) && existing != 0
      ==> reply == Said(Upper(mapCode) + " already exists! Map submission rejected.")
    ensures reply.Asked? <==> SubmissionPasses(mapCode, mapName, mapType) && existing == 0
    ensures reply.Asked? ==> (fresh(reply.message) && reply.message.id == msgId
      && reply.confirmed == Outcome(events, author.id, msgId)
      && reply.message.content == Legacy.SubmitNotice(reply.confirmed)
      && reply.message.reactions == {})
    ensures reply.Asked? && reply.confirmed == Accepted ==>
      Legacy.MapNameConverter(Lower(mapName)).Some?
      && journal.writes == old(journal.writes) + [Committed(Submission(mapCode, mapName, mapType, creator, desc, author))]
    ensures !(reply.Asked? && reply.confirmed == Accepted) ==> journal.writes == old(journal.writes)
  {
    var codeOk := CheckCodePattern(mapCode);
    if !codeOk {
      return Said(Legacy.CODE_REJECTED);
    }
    var name := Lower(mapName);
    if Legacy.MapNameConverter(name).None? {
      return Said(Legacy.NAME_REJECTED);
    }
    var types := SubmittedTypes(mapType);
    var typesOk := Legacy.CheckTypes(types);
    if !typesOk {
      return Said(Legacy.TYPE_REJECTED);
    }
    var code := Upper(mapCode);
    if existing != 0 {
      return Said(code + " already exists! Map submission rejected.");
    }
    var submission := MapRecord(code, creator, Legacy.MapNameConverter(name).value, author.id, types, desc);
    var msg, confirmed := Legacy.AskToSubmit(submission, "Is this submission correct?", author, msgId, botId,
                                             events, journal);
    reply := Asked(msg, confirmed);
  }

  /** `map_submit_embed` looks the document's map name up in
      `PRETTY_NAMES` (`pretty`) before anything is sent, and raises
      KeyError when it is not a key. */
  predicate Named(search: Option<MapRecord>, pretty: map<string, string>)
  {
    search.Some? && search.value.mapName in pretty
  }

  /** `deletemap(ctx, map_code)`; `search` is `find_one` of the code. */
  method Deletemap(mapCode: string, author: Member, cfg: BotConfig, search: Option<MapRecord>,
                   pretty: map<string, string>, msgId: int, botId: int, events: seq<Event>,
                   journal: Journal<MapRecord>)
    returns (reply: Reply)
    modifies journal
    ensures MapUtils.MapEditChecks(Upper(mapCode), search, author, cfg).0 == 0
      ==> reply == Said(MapUtils.MapEditChecks(Upper(mapCode), search, author, cfg).1.value)
    ensures MapUtils.MapEditChecks(Upper(mapCode), search, author, cfg).0 == 1 && !Named(search, pretty) ==> reply == Raised(MapUtils.PrettyNameError(search.value))
    ensures reply.Asked? <==> MapUtils.MapEditChecks(Upper(mapCode), search, author, cfg).0 == 1 && Named(search, pretty)
    ensures reply.Asked? ==> (search.Some? && fresh(reply.message)
      && reply.confirmed == Outcome(events, author.id, msgId)
      && reply.message.content == Legacy.DeleteNotice(reply.confirmed, search.value.code))
    ensures journal.writes == old(journal.writes)
      + (if reply.Asked? && reply.confirmed == Accepted then [Deleted(search.value)] else [])
  {
    var code := Upper(mapCode);
    var checks := MapUtils.MapEditChecks(code, search, author, cfg);
    if checks.0 == 0 {
      return Said(checks.1.value);
    }
    if search.value.mapName !in pretty {
      return Raised(MapUtils.PrettyNameError(search.value));
    }
    var msg := new Message(msgId, "Do you want to delete this?");
    var confirmed, _ := Confirm(msg, author.id, botId, events);
    if confirmed == Accepted {
      msg.Edit(search.value.code + " has been deleted.");
      journal.Delete(search.value);
    } else if confirmed == Rejected {
      msg.Edit(search.value.code + " has not been deleted.");
    } else if confirmed == Unanswered {
      msg.Edit("Submission timed out! " + search.value.code + " has not been deleted.");
    }
    reply := Asked(msg, confirmed);
  }

  /** `editdesc(ctx, map_code, desc)`: after `map_edit_checks`, overwrite
      the description of the fetched document and hand it to
      `map_edit_confirmation`. */
  method Editdesc(mapCode: string, desc: string, author: Member, cfg: BotConfig, search: Option<MapRecord>,
                  pretty: map<string, string>, msgId: int, botId: int, events: seq<Event>,
                  journal: Journal<MapRecord>)
    returns (reply: Reply)
    modifies journal
    ensures MapUtils.MapEditChecks(Upper(mapCode), search, author, cfg).0 == 0
      ==> reply == Said(MapUtils.MapEditChecks(Upper(mapCode), search, author, cfg).1.value)
    ensures MapUtils.MapEditChecks(Upper(mapCode), search, author, cfg).0 == 1 && !Named(search, pretty) ==> reply == Raised(MapUtils.PrettyNameError(search.value))
    ensures reply.Asked? <==> MapUtils.MapEditChecks(Upper(mapCode), search, author, cfg).0 == 1 && Named(search, pretty)
    ensures reply.Asked? ==> (search.Some? && fresh(reply.message)
      && reply.confirmed == Outcome(events, author.id, msgId)
      && reply.message.content == MapUtils.EditNotice(reply.confirmed, search.value.code)
      && reply.message.reactions == {})
    ensures journal.writes == old(journal.writes)
      + (if reply.Asked? && reply.confirmed == Accepted then [Committed(search.value.(desc := desc))] else [])
  {
    var code := Upper(mapCode);
    var checks := MapUtils.MapEditChecks(code, search, author, cfg);
    if checks.0 == 0 {
      return Said(checks.1.value);
    }
    if search.value.mapName !in pretty {
      return Raised(MapUtils.PrettyNameError(search.value));
    }
    var document := new MapDocument(search.value);
    document.desc := desc;
    var msg := new Message(msgId, "Is this submission correct?");
    var confirmed, _ := Confirm(msg, author.id, botId, events);
    MapUtils.MapEditConfirmation(confirmed, msg, document, journal);
    reply := Asked(msg, confirmed);
  }

  /** `edittypes(ctx, map_code, map_type)`: the permission check comes
      first, then the type check, then as `editdesc` with the types. */
  method Edittypes(mapCode: string, mapType: string, author: Member, cfg: BotConfig,
                   search: Option<MapRecord>, pretty: map<string, string>, msgId: int, botId: int,
                   events: seq<Event>, journal: Journal<MapRecord>)
    returns (reply: Reply)
    modifies journal
    ensures MapUtils.MapEditChecks(Upper(mapCode), search, author, cfg).0 == 0
      ==> reply == Said(MapUtils.MapEditChecks(Upper(mapCode), search, author, cfg).1.value)
    ensures (MapUtils.MapEditChecks(Upper(mapCode), search, author, cfg).0 == 1
      && !Legacy.AllKnownTypes(SubmittedTypes(mapType))) ==> reply == Said(Legacy.TYPE_REJECTED)
    ensures (MapUtils.MapEditChecks(Upper(mapCode), search, author, cfg).0 == 1 && Legacy.AllKnownTypes(SubmittedTypes(mapType))
      && !Named(search, pretty)) ==> reply == Raised(MapUtils.PrettyNameError(search.value))
    ensures reply.Asked? <==> (MapUtils.MapEditChecks(Upper(mapCode), search, author, cfg).0 == 1
      && Legacy.AllKnownTypes(SubmittedTypes(mapType)) && Named(search, pretty))
    ensures reply.Asked? ==> (search.Some? && fresh(reply.message)
      && reply.confirmed == Outcome(events, author.id, msgId)
      && reply.message.content == MapUtils.EditNotice(reply.confirmed, search.value.code)
      && reply.message.reactions == {})
    ensures journal.writes == old(journal.writes)
      + (if reply.Asked? && reply.confirmed == Accepted
         then [Committed(search.value.(types := SubmittedTypes(mapType)))] else [])
  {
    var code := Upper(mapCode);
    var checks := MapUtils.MapEditChecks(code, search, author, cfg);
    if checks.0 == 0 {
      return Said(checks.1.value);
    }
    var types := SubmittedTypes(mapType);
    var typesOk := Legacy.CheckTypes(types);
    if !typesOk {
      return Said(Legacy.TYPE_REJECTED);
    }
    if search.value.mapName !in pretty {
      return Raised(MapUtils.PrettyNameError(search.value));
    }
    var document := new MapDocument(search.value);
    document.types := types;
    var msg := new Message(msgId, "Is this submission correct?");
    var confirmed, _ := Confirm(msg, author.id, botId, events);
    MapUtils.MapEditConfirmation(confirmed, msg, document, journal);
    reply := Asked(msg, confirmed);
  }

  // ----- editcode -----

  /** When `editcode` as written commits: a code of the right format, a
      document found whose map name has a pretty name, and True from
      `confirm`. Who asks plays no part. */
  predicate EditcodeCommits(newMapCode: string, search: Option<MapRecord>, pretty: map<string, string>,
                            confirmed: Confirmed)
  {
    MatchesCodePattern(Upper(newMapCode)) && Named(search, pretty) && confirmed == Accepted
  }

  /** `editcode(ctx, map_code, new_map_code)` as written: only the format
      of the new code is checked; a missing document raises on
      `search.code`. */
  method EditcodeAsWritten(mapCode: string, newMapCode: string, author: Member, search: Option<MapRecord>,
                           pretty: map<string, string>, msgId: int, botId: int, events: seq<Event>,
                           journal: Journal<MapRecord>)
    returns (reply: Reply)
    modifies journal
    ensures !MatchesCodePattern(Upper(newMapCode)) ==> reply == Said(Legacy.CODE_REJECTED)
    ensures MatchesCodePattern(Upper(newMapCode)) && search.None? ==> reply.Raised?
    ensures MatchesCodePattern(Upper(newMapCode)) && search.Some? && !Named(search, pretty)
      ==> reply == Raised(MapUtils.PrettyNameError(search.value))
    ensures reply.Asked? <==> MatchesCodePattern(Upper(newMapCode)) && Named(search, pretty)
    ensures reply.Asked? ==> (fresh(reply.message) && reply.confirmed == Outcome(events, author.id, msgId)
      && reply.message.content == MapUtils.EditNotice(reply.confirmed, Upper(newMapCode)))
    ensures journal.writes == old(journal.writes)
      + (if reply.Asked? && EditcodeCommits(newMapCode, search, pretty, reply.confirmed)
         then [Committed(search.value.(code := Upper(newMapCode)))] else [])
  {
    var newCode := Upper(newMapCode);
    var codeOk := CheckCodePattern(newCode);
    if !codeOk {
      return Said(Legacy.CODE_REJECTED);
    }
    if search.None? {
      return Raised("AttributeError: 'NoneType' object has no attribute 'code'");
    }
    if search.value.mapName !in pretty {
      return Raised(MapUtils.PrettyNameError(search.value));
    }
    var document := new MapDocument(search.value);
    document.code := newCode;
    var msg := new Message(msgId, "Is this submission correct?");
    var confirmed, _ := Confirm(msg, author.id, botId, events);
    MapUtils.MapEditConfirmation(confirmed, msg, document, journal);
    reply := Asked(msg, confirmed);
  }

  /** A member who neither posted the map nor holds a whitelisted role
      still gets its code changed by the as-written `editcode`. */
  lemma EditcodeIgnoresPermission(search: MapRecord, author: Member, cfg: BotConfig, pretty: map<string, string>)
    requires search.postedBy != author.id && !HasWhitelistedRole(author, cfg)
    requires search.mapName in pretty
    ensures EditcodeCommits("ABC12", Some(search), pretty, Accepted)
    ensures MapUtils.MapEditChecks("ABC12", Some(search), author, cfg).0 == 0
  {
    assert Upper("ABC12") == "ABC12";
  }

  /** When `editcode` commits once it makes the checks its siblings make:
      `map_edit_checks` on the old code, and a new code no document holds. */
  predicate EditcodeCommitsChecked(mapCode: string, newMapCode: string, search: Option<MapRecord>,
                                   pretty: map<string, string>, author: Member, cfg: BotConfig, taken: nat,
                                   confirmed: Confirmed)
  {
    MatchesCodePattern(Upper(newMapCode)) && MapUtils.MapEditChecks(Upper(mapCode), search, author, cfg).0 == 1
    && taken == 0 && Named(search, pretty) && confirmed == Accepted
  }

  /** The checked `editcode` commits only for the poster holding a
      whitelisted role, and only to a free code of the right format. */
  lemma EditcodeCheckedNeedsPermission(mapCode: string, newMapCode: string, search: Option<MapRecord>,
                                       pretty: map<string, string>, author: Member, cfg: BotConfig, taken: nat,
                                       confirmed: Confirmed)
    requires EditcodeCommitsChecked(mapCode, newMapCode, search, pretty, author, cfg, taken, confirmed)
    ensures search.Some? && search.value.postedBy == author.id && HasWhitelistedRole(author, cfg)
    ensures taken == 0 && MatchesCodePattern(Upper(newMapCode))
    ensures EditcodeCommits(newMapCode, search, pretty, confirmed)
  {
  }

  /** `editcode` with the checks of its siblings: `map_edit_checks` on the
      old code, and a refusal when `taken` documents already hold the new
      code. */
  method Editcode(mapCode: string, newMapCode: string, author: Member, cfg: BotConfig,
                  search: Option<MapRecord>, pretty: map<string, string>, taken: nat, msgId: int, botId: int,
                  events: seq<Event>, journal: Journal<MapRecord>)
    returns (reply: Reply)
    modifies journal
    ensures !MatchesCodePattern(Upper(newMapCode)) ==> reply == Said(Legacy.CODE_REJECTED)
    ensures (MatchesCodePattern(Upper(newMapCode)) && MapUtils.MapEditChecks(Upper(mapCode), search, author, cfg).0 == 1 && taken == 0
      && !Named(search, pretty)) ==> reply == Raised(MapUtils.PrettyNameError(search.value))
    ensures reply.Asked? <==> (MatchesCodePattern(Upper(newMapCode))
      && MapUtils.MapEditChecks(Upper(mapCode), search, author, cfg).0 == 1 && taken == 0 && Named(search, pretty))
    ensures reply.Asked? ==> (search.Some? && fresh(reply.message)
      && reply.confirmed == Outcome(events, author.id, msgId)
      && reply.message.content == MapUtils.EditNotice(reply.confirmed, Upper(newMapCode)))
    ensures journal.writes == old(journal.writes)
      + (if reply.Asked? && EditcodeCommitsChecked(mapCode, newMapCode, search, pretty, author, cfg, taken, reply.confirmed)
         then [Committed(search.value.(code := Upper(newMapCode)))] else [])
  {
    var code := Upper(mapCode);
    var newCode := Upper(newMapCode);
    var codeOk := CheckCodePattern(newCode);
    if !codeOk {
      return Said(Legacy.CODE_REJECTED);
    }
    var checks := MapUtils.MapEditChecks(code, search, author, cfg);
    if checks.0 == 0 {
      return Said(checks.1.value);
    }
    if taken != 0 {
      return Said(newCode + " already exists! Map submission rejected.");
    }
    if search.value.mapName !in pretty {
      return Raised(MapUtils.PrettyNameError(search.value));
    }
    var document := new MapDocument(search.value);
    document.code := newCode;
    var msg := new Message(msgId, "Is this submission correct?");
    var confirmed, _ := Confirm(msg, author.id, botId, events);
    MapUtils.MapEditConfirmation(confirmed, msg, document, journal);
    reply := Asked(msg, confirmed);
  }
}
