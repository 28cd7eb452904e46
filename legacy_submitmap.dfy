/** The older map submission cog, cogs/submitmap.py: the alias lookup of
    map names, the validation chain of `submitmap`, and `deletemap`,
    `editdesc` and `edittypes`, which let the poster OR a whitelisted
    member act. */
module LegacyMapSubmission {
  import opened Common
  import opened Text
  import opened Chat
  import opened Constants
  import opened Confirmation
  import opened Documents
  import MapUtils

  /** `cog_check`: only the map-submission channel; the newer cog's check
      is the same. */
  function CogCheck(channel: int, cfg: BotConfig): (r: Option<bool>)
    ensures r.Some? <==> channel == cfg.mapSubmitChannel
    ensures r.Some? ==> r.value
  {
    if channel == cfg.mapSubmitChannel then Some(true) else None
  }

  // ----- map_name_converter -----

  /** The index of the first group holding `name`, `|groups|` when none
      does: the `for i in range(len(ALL_MAP_NAMES))` loop. */
  function GroupIndex(groups: seq<seq<string>>, name: string): (i: nat)
    ensures i <= |groups|
    ensures forall j :: 0 <= j < i ==> name !in groups[j]
    ensures i < |groups| ==> name in groups[i]
    decreases |groups|
  {
    if groups == [] then 0
    else if name in groups[0] then 0
    else 1 + GroupIndex(groups[1..], name)
  }

  /** `map_name_converter(map_name)`: the head of the first alias group
      holding the name, or False (None) after the loop. */
  function MapNameConverter(name: string): (r: Option<string>)
    ensures r.Some? <==> exists i :: 0 <= i < |ALL_MAP_NAMES| && name in ALL_MAP_NAMES[i]
    ensures r.Some? ==> r.value in PRETTY_NAMES
  {
    CanonicalNamesArePretty();
    var i := GroupIndex(ALL_MAP_NAMES, name);
    if i < |ALL_MAP_NAMES| then Some(ALL_MAP_NAMES[i][0]) else None
  }

  /** Every alias converts to the head of its own group. */
  lemma ConverterOfAlias(i: nat, j: nat)
    requires i < |ALL_MAP_NAMES| && j < |ALL_MAP_NAMES[i]|
    ensures MapNameConverter(ALL_MAP_NAMES[i][j]) == Some(ALL_MAP_NAMES[i][0])
  {
    AliasesDistinct();
    var g := GroupIndex(ALL_MAP_NAMES, ALL_MAP_NAMES[i][j]);
    assert ALL_MAP_NAMES[i][j] in ALL_MAP_NAMES[i];
    assert g == i;
  }

  /** Converting a canonical name gives it back. */
  lemma ConverterIdempotent(name: string)
    requires MapNameConverter(name).Some?
    ensures MapNameConverter(MapNameConverter(name).value) == MapNameConverter(name)
  {
    var g := GroupIndex(ALL_MAP_NAMES, name);
    CanonicalNamesArePretty();
    ConverterOfAlias(g, 0);
  }

  /** Only a lower-case ASCII alias converts, and lowering it changes
      nothing. */
  lemma ConvertedNameIsLower(name: string)
    requires MapNameConverter(name).Some?
    ensures IsLowerCased(name) && AllAsciiAlnum(name)
    ensures Lower(name) == name
  {
    AliasesAreLowerAlnum();
    var g := GroupIndex(ALL_MAP_NAMES, name);
    var j :| 0 <= j < |ALL_MAP_NAMES[g]| && ALL_MAP_NAMES[g][j] == name;
    LowerOfLowerCased(name);
  }

  // ----- submitmap -----

  const CODE_REJECTED := "Only letters A-Z and numbers 0-9 allowed in <map_code>. Map submission rejected."
  const NAME_REJECTED :=
    "<map_name> doesn't exist! Map submission rejected. Use `/maps` for a list of acceptable maps."
  const TYPE_REJECTED :=
    "<map_type> doesn't exist! Map submission rejected. Use `/maptypes` for a list of acceptable map types."
  const CODE_TAKEN := "<map_code> already exists! Map submission rejected."
  const NO_PERMISSION := MapUtils.NO_EDIT_PERMISSION

  /** `[x.upper() for x in map_type.split()]` */
  function LegacyTypes(mapType: string): seq<string>
  {
    seq(|Words(mapType)|, k requires 0 <= k < |Words(mapType)| => Upper(Words(mapType)[k]))
  }

  predicate AllKnownTypes(types: seq<string>)
  {
    forall k :: 0 <= k < |types| ==> types[k] in TYPES_OF_MAP
  }

  /** The three checks `submitmap` makes before it looks for the code:
      letters and digits only (an empty code passes), a name that is an
      alias as typed, and known types. */
  predicate SubmissionPasses(mapCode: string, mapName: string, mapType: string)
  {
    AllAsciiAlnum(mapCode) && MapNameConverter(mapName).Some? && AllKnownTypes(LegacyTypes(mapType))
  }

  /** The reply of the message `confirm` decided on, for a submission. */
  function SubmitNotice(confirmed: Confirmed): string
  {
    match confirmed
    case Accepted => CONFIRM_REACTION_EMOJI + " Confirmed! Map submission accepted."
    case Rejected => CANCEL_REACTION_EMOJI + " Map submission rejected."
    case Unanswered => "Submission timed out! Map submission rejected."
  }

  /** The text put on the message of `deletemap` once `confirm` returned. */
  function DeleteNotice(confirmed: Confirmed, code: string): string
  {
    match confirmed
    case Accepted => code + " has been deleted."
    case Rejected => code + " has not been deleted."
    case Unanswered => "Submission timed out! " + code + " has not been deleted."
  }

  /** How a command ended: a text sent, nothing sent, a message the
      author was asked to confirm, with the answer, or an exception. */
  datatype Reply = Said(text: string) | Silent | Asked(message: Message, confirmed: Confirmed) | Raised(error: string)

  /** The `for x in map_code` loop: stop at the first character that is
      not an ASCII letter or digit. */
  method CheckCode(mapCode: string) returns (ok: bool)
    ensures ok <==> AllAsciiAlnum(mapCode)
  {
    var k := 0;
    while k < |mapCode|
      invariant k <= |mapCode|
      invariant forall j :: 0 <= j < k ==> IsAsciiAlnum(mapCode[j])
    {
      if !IsAsciiAlnum(mapCode[k]) {
        return false;
      }
      k := k + 1;
    }
    return true;
  }

  /** The `for x in map_type` loop: every type is in TYPES_OF_MAP. */
  method CheckTypes(types: seq<string>) returns (ok: bool)
    ensures ok <==> AllKnownTypes(types)
  {
    var k := 0;
    while k < |types|
      invariant k <= |types|
      invariant forall j :: 0 <= j < k ==> types[j] in TYPES_OF_MAP
    {
      if types[k] !in TYPES_OF_MAP {
        return false;
      }
      k := k + 1;
    }
    return true;
  }

  /** The document `submitmap` builds for a submission that passed. */
  function Submission(mapCode: string, mapName: string, mapType: string, creator: string,
                      desc: string, author: Member): MapRecord
    requires MapNameConverter(Lower(mapName)).Some?
  {
    MapRecord(Upper(mapCode), creator, MapNameConverter(Lower(mapName)).value, author.id,
              LegacyTypes(mapType), desc)
  }

  /** `submitmap(ctx, map_code, map_name, map_type, creator, desc)`.
      `existing` is the number of documents holding the upper-cased code;
      `events` the reactions that follow the question. The '$' replaces of
      the source discard their results, so the arguments are used as
      typed. */
  method Submitmap(mapCode: string, mapName: string, mapType: string, creator: string, desc: string,
                   author: Member, existing: nat, msgId: int, botId: int, events: seq<Event>,
                   journal: Journal<MapRecord>)
    returns (reply: Reply)
    modifies journal
    ensures !AllAsciiAlnum(mapCode) ==> reply == Said(CODE_REJECTED)
    ensures AllAsciiAlnum(mapCode) && MapNameConverter(mapName).None? ==> reply == Said(NAME_REJECTED)
    ensures AllAsciiAlnum(mapCode) && MapNameConverter(mapName).Some? && !AllKnownTypes(LegacyTypes(mapType))
      ==> reply == Said(TYPE_REJECTED)
    ensures SubmissionPasses(mapCode, mapName, mapType) && existing != 0 ==> reply == Said(CODE_TAKEN)
    ensures reply.Asked? <==> SubmissionPasses(mapCode, mapName, mapType) && existing == 0
    ensures reply.Asked? ==> (fresh(reply.message) && reply.message.id == msgId
      && reply.confirmed == Outcome(events, author.id, msgId)
      && reply.message.content == SubmitNotice(reply.confirmed)
      && reply.message.reactions == {}
      && reply.message.log == [Added(CONFIRM_REACTION_EMOJI), Added(CANCEL_REACTION_EMOJI), Cleared,
                               Edited(SubmitNotice(reply.confirmed))])
    ensures reply.Asked? && reply.confirmed == Accepted ==>
      MapNameConverter(Lower(mapName)).Some?
      && journal.writes == old(journal.writes) + [Committed(Submission(mapCode, mapName, mapType, creator, desc, author))]
    ensures !(reply.Asked? && reply.confirmed == Accepted) ==> journal.writes == old(journal.writes)
  {
    var codeOk := CheckCode(mapCode);
    if !codeOk {
      return Said(CODE_REJECTED);
    }
    if MapNameConverter(mapName).None? {
      return Said(NAME_REJECTED);
    }
    var types := LegacyTypes(mapType);
    var typesOk := CheckTypes(types);
    if !typesOk {
      return Said(TYPE_REJECTED);
    }
    var code := Upper(mapCode);
    var name := Lower(mapName);
    ConvertedNameIsLower(mapName);
    if existing == 0 {
      var submission := MapRecord(code, creator, MapNameConverter(name).value, author.id, types, desc);
      var msg, confirmed := AskToSubmit(submission, "Is this correct?", author, msgId, botId, events, journal);
      reply := Asked(msg, confirmed);
    } else {
      reply := Said(CODE_TAKEN);
    }
  }

  /** The end of `submitmap`: ask the author to confirm `submission`, edit
      the question by the answer and commit when accepted. */
  method AskToSubmit(submission: MapRecord, question: string, author: Member, msgId: int, botId: int,
                     events: seq<Event>, journal: Journal<MapRecord>)
    returns (msg: Message, confirmed: Confirmed)
    modifies journal
    ensures fresh(msg) && msg.id == msgId && confirmed == Outcome(events, author.id, msgId)
      && msg.content == SubmitNotice(confirmed) && msg.reactions == {}
      && msg.log == [Added(CONFIRM_REACTION_EMOJI), Added(CANCEL_REACTION_EMOJI), Cleared, Edited(SubmitNotice(confirmed))]
    ensures journal.writes == old(journal.writes) + (if confirmed == Accepted then [Committed(submission)] else [])
  {
    msg := new Message(msgId, question);
    var answeredAt;
    confirmed, answeredAt := Confirm(msg, author.id, botId, events);
    if confirmed == Accepted {
      msg.Edit(CONFIRM_REACTION_EMOJI + " Confirmed! Map submission accepted.");
      journal.Commit(submission);
    } else if confirmed == Rejected {
      msg.Edit(CANCEL_REACTION_EMOJI + " Map submission rejected.");
    } else if confirmed == Unanswered {
      msg.Edit("Submission timed out! Map submission rejected.");
    }
  }

  // ----- deletemap / editdesc / edittypes -----

  /** The rule of the older cog: the poster OR a member with a whitelisted
      role may change a map. */
  predicate MayChange(search: MapRecord, author: Member, cfg: BotConfig)
  {
    search.postedBy == author.id || HasWhitelistedRole(author, cfg)
  }

  /** The newer rule of `map_edit_checks` (AND) lets through only members
      the older rule (OR) lets through; a poster without a whitelisted role,
      and a moderator changing someone else's map, are the difference. */
  lemma NewRuleIsStricter(mapCode: string, search: MapRecord, author: Member, cfg: BotConfig)
    ensures MapUtils.MapEditChecks(mapCode, Some(search), author, cfg).0 == 1 ==> MayChange(search, author, cfg)
    ensures search.postedBy == author.id && !HasWhitelistedRole(author, cfg) ==>
      MayChange(search, author, cfg) && MapUtils.MapEditChecks(mapCode, Some(search), author, cfg).0 == 0
    ensures search.postedBy != author.id && HasWhitelistedRole(author, cfg) ==>
      MayChange(search, author, cfg) && MapUtils.MapEditChecks(mapCode, Some(search), author, cfg).0 == 0
  {
  }

  /** The `map_edit_checks` its comment describes is the older cog's rule. */
  lemma IntendedRuleIsOlderRule(mapCode: string, search: MapRecord, author: Member, cfg: BotConfig)
    ensures MapUtils.MapEditChecksIntended(mapCode, Some(search), author, cfg).0 == 1 <==> MayChange(search, author, cfg)
  {
  }

  /** `deletemap(ctx, map_code)`. `matches` are the documents holding the
      upper-cased code, in storage order; the command needs exactly one. */
  method Deletemap(mapCode: string, author: Member, cfg: BotConfig, matches: seq<MapRecord>,
                   pretty: map<string, string>, msgId: int, botId: int, events: seq<Event>,
                   journal: Journal<MapRecord>)
    returns (reply: Reply)
    modifies journal
    ensures |matches| != 1 ==> reply == Said(Upper(mapCode) + " does not exist.")
    ensures |matches| == 1 && !MayChange(matches[0], author, cfg) ==> reply == Said(NO_PERMISSION)
    ensures |matches| == 1 && MayChange(matches[0], author, cfg) && matches[0].mapName !in pretty
      ==> reply == Raised(MapUtils.PrettyNameError(matches[0]))
    ensures reply.Asked? <==> |matches| == 1 && MayChange(matches[0], author, cfg) && matches[0].mapName in pretty
    ensures reply.Asked? ==> (fresh(reply.message) && reply.message.id == msgId
      && reply.confirmed == Outcome(events, author.id, msgId)
      && reply.message.content == DeleteNotice(reply.confirmed, matches[0].code)
      && reply.message.log == [Added(CONFIRM_REACTION_EMOJI), Added(CANCEL_REACTION_EMOJI), Cleared,
                               Edited(DeleteNotice(reply.confirmed, matches[0].code))])
    ensures journal.writes == old(journal.writes)
      + (if reply.Asked? && reply.confirmed == Accepted then [Deleted(matches[0])] else [])
  {
    var code := Upper(mapCode);
    if |matches| == 1 {
      var search := matches[0];
      if search.postedBy == author.id || HasWhitelistedRole(author, cfg) {
        if search.mapName !in pretty {
          return Raised(MapUtils.PrettyNameError(search));
        }
        var msg := new Message(msgId, "Are you sure you want to delete " + code + "?");
        var confirmed, _ := Confirm(msg, author.id, botId, events);
        if confirmed == Accepted {
          msg.Edit(search.code + " has been deleted.");
          journal.Delete(search);
        } else if confirmed == Rejected {
          msg.Edit(search.code + " has not been deleted.");
        } else if confirmed == Unanswered {
          msg.Edit("Submission timed out! " + search.code + " has not been deleted.");
        }
        reply := Asked(msg, confirmed);
      } else {
        reply := Said(NO_PERMISSION);
      }
    } else {
      reply := Said(code + " does not exist.");
    }
  }

  /** `editdesc(ctx, map_code, desc)`: with exactly one document and the
      OR rule met, the description is overwritten in the fetched document,
      which is committed only on confirmation; otherwise nothing is sent
      and nothing changes. */
  method Editdesc(mapCode: string, desc: string, author: Member, cfg: BotConfig, matches: seq<MapRecord>,
                  pretty: map<string, string>, msgId: int, botId: int, events: seq<Event>,
                  journal: Journal<MapRecord>)
    returns (reply: Reply)
    modifies journal
    ensures reply.Asked? <==> |matches| == 1 && MayChange(matches[0], author, cfg) && matches[0].mapName in pretty
    ensures reply.Raised? <==> |matches| == 1 && MayChange(matches[0], author, cfg) && matches[0].mapName !in pretty
    ensures reply.Raised? ==> reply.error == MapUtils.PrettyNameError(matches[0])
    ensures !reply.Asked? && !reply.Raised? ==> reply == Silent
    ensures reply.Asked? ==> (fresh(reply.message)
      && reply.confirmed == Outcome(events, author.id, msgId)
      && reply.message.content == MapUtils.EditNotice(reply.confirmed, matches[0].code)
      && reply.message.reactions == {})
    ensures journal.writes == old(journal.writes)
      + (if reply.Asked? && reply.confirmed == Accepted then [Committed(matches[0].(desc := desc))] else [])
  {
    var code := Upper(mapCode);
    if |matches| == 1 {
      var search := new MapDocument(matches[0]);
      if search.postedBy == author.id || HasWhitelistedRole(author, cfg) {
        if search.mapName !in pretty {
          return Raised(MapUtils.PrettyNameError(matches[0]));
        }
        search.desc := desc;
        var msg := new Message(msgId, code + ": Is this edit correct?");
        var confirmed, _ := Confirm(msg, author.id, botId, events);
        MapUtils.MapEditConfirmation(confirmed, msg, search, journal);
        return Asked(msg, confirmed);
      }
    }
    return Silent;
  }

  /** `edittypes(ctx, map_code, map_type)`: the types are checked first;
      then as `editdesc`, overwriting the types. */
  method Edittypes(mapCode: string, mapType: string, author: Member, cfg: BotConfig,
                   matches: seq<MapRecord>, pretty: map<string, string>, msgId: int, botId: int,
                   events: seq<Event>, journal: Journal<MapRecord>)
    returns (reply: Reply)
    modifies journal
    ensures !AllKnownTypes(LegacyTypes(mapType)) ==> reply == Said(TYPE_REJECTED)
    ensures reply.Asked? <==>
      AllKnownTypes(LegacyTypes(mapType)) && |matches| == 1 && MayChange(matches[0], author, cfg) && matches[0].mapName in pretty
    ensures reply.Raised? <==>
      AllKnownTypes(LegacyTypes(mapType)) && |matches| == 1 && MayChange(matches[0], author, cfg) && matches[0].mapName !in pretty
    ensures reply.Raised? ==> reply.error == MapUtils.PrettyNameError(matches[0])
    ensures AllKnownTypes(LegacyTypes(mapType)) && !reply.Asked? && !reply.Raised? ==> reply == Silent
    ensures reply.Asked? ==> (fresh(reply.message)
      && reply.confirmed == Outcome(events, author.id, msgId)
      && reply.message.content == MapUtils.EditNotice(reply.confirmed, matches[0].code)
      && reply.message.reactions == {})
    ensures journal.writes == old(journal.writes)
      + (if reply.Asked? && reply.confirmed == Accepted
         then [Committed(matches[0].(types := LegacyTypes(mapType)))] else [])
  {
    var code := Upper(mapCode);
    var types := LegacyTypes(mapType);
    var typesOk := CheckTypes(types);
    if !typesOk {
      return Said(TYPE_REJECTED);
    }
    if |matches| == 1 {
      var search := new MapDocument(matches[0]);
      if search.postedBy == author.id || HasWhitelistedRole(author, cfg) {
        if search.mapName !in pretty {
          return Raised(MapUtils.PrettyNameError(matches[0]));
        }
        search.types := types;
        var msg := new Message(msgId, code + ": Is this edit correct?");
        var confirmed, _ := Confirm(msg, author.id, botId, events);
        MapUtils.MapEditConfirmation(confirmed, msg, search, journal);
        return Asked(msg, confirmed);
      }
    }
    return Silent;
  }

  /** Every type `submitmap` and `edittypes` store is in TYPES_OF_MAP, and
      there is one per word of the argument. */
  lemma StoredTypesAreKnown(mapType: string)
    requires AllKnownTypes(LegacyTypes(mapType))
    ensures |LegacyTypes(mapType)| == |Words(mapType)|
    ensures forall k :: 0 <= k < |Words(mapType)| ==> Upper(Words(mapType)[k]) in TYPES_OF_MAP
  {
    assert forall k :: 0 <= k < |Words(mapType)| ==> LegacyTypes(mapType)[k] == Upper(Words(mapType)[k]);
  }
}
