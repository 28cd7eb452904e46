/** The newer personal-best cog, cogs/submit_personal_best.py: `submitpb`,
    which creates or updates the author's record for a level only when it
    is strictly faster and `confirm` returned True, and `deletepb`, open to
    the poster holding a whitelisted role. */
module PersonalBestSubmission {
  import opened Common
  import opened Text
  import opened Chat
  import opened Constants
  import opened Confirmation
  import opened Documents
  import opened Utilities
  import MapSubmission

  /** `cog_check`: only the record channel. */
  function CogCheck(channel: int, cfg: BotConfig): (r: Option<bool>)
    ensures r.Some? <==> channel == cfg.recordChannel
    ensures r.Some? ==> r.value
  {
    if channel == cfg.recordChannel then Some(true) else None
  }

  const CODE_REJECTED := "Only letters A-Z and numbers 0-9 allowed in <map_code>. Map submission rejected."
  const INVALID_TIME := "Invalid time. Map submission rejected."
  const NOT_FASTER := "Personal best needs to be faster to update."
  const NOT_FOUND := "Provided arguments might not exist. Personal best deletion was unsuccesful."
  const NO_PERMISSION := "You do not have sufficient permissions. Personal best was not deleted."

  /** `if not record_in_seconds`: None and 0.0 are both refused. */
  predicate TimeAccepted(t: TimeValue)
  {
    t.Seconds? && t.value != 0.0
  }

  /** The upper-cased level names of the rows, in row order. */
  function UpperLevels(rows: seq<PbRecord>): (r: seq<string>)
    ensures |r| == |rows|
    ensures forall k :: 0 <= k < |rows| ==> r[k] == Upper(rows[k].level)
  {
    if rows == [] then [] else UpperLevels(rows[..|rows| - 1]) + [Upper(rows[|rows| - 1].level)]
  }

  /** The `level_checker` loop: each upper-cased level name once, in the
      order the names first appear among the rows. */
  method CollectLevels(rows: seq<PbRecord>) returns (levels: seq<string>)
    ensures levels == Dedupe(UpperLevels(rows))
  {
    levels := [];
    var k := 0;
    while k < |rows|
      invariant k <= |rows|
      invariant levels == Dedupe(UpperLevels(rows[..k]))
    {
      assert rows[..k + 1][..k] == rows[..k];
      var name := Upper(rows[k].level);
      if name !in levels {
        levels := levels + [name];
      }
      k := k + 1;
    }
    assert rows[..k] == rows;
  }

  /** The value of the "Currently submitted level names:" field. */
  function LevelListing(levels: seq<string>): string
  {
    if levels == [] then "N/A" else Join(", ", levels)
  }

  /** The record `submitpb` starts from when the author has none for the
      level: the upper-cased code and level, not yet verified. */
  function NewRecord(newId: int, mapCode: string, level: string, seconds: real, author: Member,
                     messageId: int, url: string): PbRecord
  {
    PbRecord(newId, Upper(mapCode), author.name, author.id, messageId, url, Upper(level), seconds, false, None)
  }

  /** The fields an accepted submission overwrites. */
  function Accepted(d: PbRecord, seconds: real, author: Member, messageId: int, url: string,
                    hiddenId: int): PbRecord
  {
    d.(record := seconds, messageId := messageId, url := url, name := author.name, verified := false,
       hiddenId := Some(hiddenId))
  }

  /** When `submitpb` asks for confirmation: a code of the right format, a
      non-zero time, and either no record of the author for the level or
      one that the new time beats. */
  predicate GoesToConfirm(mapCode: string, record: string, existing: Option<PbRecord>)
  {
    MapSubmission.MatchesCodePattern(mapCode) && TimeAccepted(TimeConvert(record))
    && (existing.None? || TimeConvert(record).value < existing.value.record)
  }

  /** What an accepted `submitpb` commits. */
  function Committed(mapCode: string, level: string, record: string, existing: Option<PbRecord>, newId: int,
                     author: Member, messageId: int, url: string, hiddenId: int): PbRecord
    requires TimeConvert(record).Seconds?
  {
    var t := TimeConvert(record).value;
    Accepted(if existing.Some? then existing.value else NewRecord(newId, mapCode, level, t, author, messageId, url),
             t, author, messageId, url, hiddenId)
  }

  /** What a committed submission is: a strictly faster time for the same
      document when one existed, a new document for the author's
      upper-cased code and level otherwise; unverified either way, and
      pointing at the command message and the new hidden message. */
  lemma CommittedRecord(mapCode: string, level: string, record: string, existing: Option<PbRecord>, newId: int,
                        author: Member, messageId: int, url: string, hiddenId: int)
    requires GoesToConfirm(mapCode, record, existing)
    ensures var r := Committed(mapCode, level, record, existing, newId, author, messageId, url, hiddenId);
      && r.record == TimeConvert(record).value
      && !r.verified && r.hiddenId == Some(hiddenId) && r.messageId == messageId && r.url == url
      && r.name == author.name
      && (existing.Some? ==> (r.record < existing.value.record && r.id == existing.value.id
          && r.code == existing.value.code && r.level == existing.value.level
          && r.postedBy == existing.value.postedBy))
      && (existing.None? ==> (r.id == newId && r.code == Upper(mapCode) && r.level == Upper(level)
          && r.postedBy == author.id))
  {
  }

  /** A time that does not beat the stored one is never committed, even
      an equal one. */
  lemma EqualTimeRefused(mapCode: string, record: string, existing: PbRecord)
    requires TimeConvert(record) == Seconds(existing.record)
    ensures !GoesToConfirm(mapCode, record, Some(existing))
  {
  }

  // ----- the rank message -----

  function RankLine(rank: nat): string
  {
    "Your rank is " + NatToString(rank) + " on the unverified scoreboard."
  }

  /** The rank messages sent while walking the top rows: one for every row
      that is the submitted document, numbered from 1. */
  function RankLines(top: seq<PbRecord>, id: int): seq<string>
  {
    if top == [] then []
    else RankLines(top[..|top| - 1], id) + (if top[|top| - 1].id == id then [RankLine(|top|)] else [])
  }

  /** Primary keys are unique, so the walk reports exactly the 1-based
      position of the submitted document, or nothing when it is not among
      the rows. */
  lemma {:induction false} RankLinesFind(top: seq<PbRecord>, id: int)
    requires forall i, j :: 0 <= i < j < |top| ==> top[i].id != top[j].id
    ensures forall k :: 0 <= k < |top| && top[k].id == id ==> RankLines(top, id) == [RankLine(k + 1)]
    ensures (forall k :: 0 <= k < |top| ==> top[k].id != id) ==> RankLines(top, id) == []
    decreases |top|
  {
    if top != [] {
      var p := top[..|top| - 1];
      assert forall i, j :: 0 <= i < j < |p| ==> p[i].id != p[j].id by {
        forall i, j | 0 <= i < j < |p| ensures p[i].id != p[j].id {
          assert p[i] == top[i] && p[j] == top[j];
        }
      }
      RankLinesFind(p, id);
      if top[|top| - 1].id == id {
        assert forall k :: 0 <= k < |p| ==> p[k].id != id by {
          forall k | 0 <= k < |p| ensures p[k].id != id {
            assert p[k] == top[k];
          }
        }
      } else {
        forall k | 0 <= k < |top| && top[k].id == id
          ensures RankLines(top, id) == [RankLine(k + 1)]
        {
          assert p[k] == top[k];
        }
        assert (forall k :: 0 <= k < |top| ==> top[k].id != id) ==> (forall k :: 0 <= k < |p| ==> p[k].id != id) by {
          if forall k :: 0 <= k < |top| ==> top[k].id != id {
            forall k | 0 <= k < |p| ensures p[k].id != id {
              assert p[k] == top[k];
            }
          }
        }
      }
    }
  }

  /** The loop over the enumerated top rows. */
  method Ranks(top: seq<PbRecord>, id: int) returns (lines: seq<string>)
    ensures lines == RankLines(top, id)
  {
    lines := [];
    var rank := 0;
    while rank < |top|
      invariant rank <= |top|
      invariant lines == RankLines(top[..rank], id)
    {
      assert top[..rank + 1][..rank] == top[..rank];
      if top[rank].id == id {
        lines := lines + [RankLine(rank + 1)];
      }
      rank := rank + 1;
    }
    assert top[..rank] == top;
  }

  // ----- submitpb -----

  /** What happens to the moderators' copy of a submission. */
  datatype HiddenAction = HiddenDeleted(id: int) | HiddenPosted(id: int)

  /** How a command ended: a text sent, a message the author was asked to
      confirm with the answer, or an exception. */
  datatype Reply = Said(text: string) | Asked(message: Message, confirmed: Confirmed) | Raised(error: string)

  function SubmitNotice(confirmed: Confirmed): string
  {
    match confirmed
    case Accepted => "Submission accepted"
    case Rejected => "Submission has not been accepted."
    case Unanswered => "Submission timed out! Submission has not been accepted."
  }

  /** The `find_one` filter for the author's record of the level: the level
      is an unescaped case-insensitive pattern. */
  function LookupQuery(mapCode: string, level: string, author: Member): Query
  {
    AllOf([Eq("code", Upper(mapCode)), Regex("level", Upper(level), true), EqInt("posted_by", author.id)])
  }

  /** The accepted branch of `submitpb`: drop the old hidden message when
      it can be fetched, post the new one, overwrite the fields, commit,
      react on the author's message and report the rank. */
  method Accept(document: RecordDocument, seconds: real, author: Member, cmd: Message, url: string, botId: int,
                hiddenFound: bool, hiddenMsgId: int, top: seq<PbRecord>, journal: Journal<PbRecord>)
    returns (hidden: seq<HiddenAction>, ranks: seq<string>)
    modifies document, cmd, journal
    ensures journal.writes == old(journal.writes)
      + [Write.Committed(Accepted(old(document.Value()), seconds, author, cmd.id, url, hiddenMsgId))]
    ensures hidden == (if old(document.hiddenId).Some? && hiddenFound
                       then [HiddenDeleted(old(document.hiddenId).value)] else []) + [HiddenPosted(hiddenMsgId)]
    ensures cmd.reactions == old(cmd.reactions) + {Mark(VERIFIED_EMOJI, botId), Mark(NOT_VERIFIED_EMOJI, botId)}
    ensures cmd.content == old(cmd.content)
      && cmd.log == old(cmd.log) + [Added(VERIFIED_EMOJI), Added(NOT_VERIFIED_EMOJI)]
    ensures document.Value() == Accepted(old(document.Value()), seconds, author, cmd.id, url, hiddenMsgId)
    ensures ranks == RankLines(Take(top, 10), document.id)
  {
    hidden := [];
    if document.hiddenId.Some? && hiddenFound {
      hidden := hidden + [HiddenDeleted(document.hiddenId.value)];
    }
    hidden := hidden + [HiddenPosted(hiddenMsgId)];
    ghost var accepted := Accepted(document.Value(), seconds, author, cmd.id, url, hiddenMsgId);
    document.record := seconds;
    document.messageId := cmd.id;
    document.url := url;
    document.name := author.name;
    document.verified := false;
    document.hiddenId := Some(hiddenMsgId);
    assert document.Value() == accepted;
    journal.Commit(document.Value());
    cmd.AddReaction(VERIFIED_EMOJI, botId);
    cmd.AddReaction(NOT_VERIFIED_EMOJI, botId);
    ranks := Ranks(Take(top, 10), document.id);
  }

  /** `submitpb(ctx, map_code, level, record)`. `cmd` is the author's
      message; `known` the documents of the code in level-then-record
      order; `levelCompiles` whether `re.compile` accepts the upper-cased
      level, unescaped (it raises `re.error` on "C++" or "("); `existing`
      what `find_one` of `LookupQuery` returns; `newId`
      the key a new document gets; `hiddenFound` whether the stored hidden
      message can still be fetched; `hiddenMsgId` the id of the new one;
      `top` the documents of the level by record after the commit. */
  method Submitpb(mapCode: string, level: string, record: string, author: Member, cmd: Message, url: string,
                  known: seq<PbRecord>, levelCompiles: bool, existing: Option<PbRecord>, newId: int, msgId: int, botId: int,
                  events: seq<Event>, hiddenFound: bool, hiddenMsgId: int, top: seq<PbRecord>,
                  journal: Journal<PbRecord>)
    returns (reply: Reply, levels: seq<string>, hidden: seq<HiddenAction>, ranks: seq<string>)
    modifies cmd, journal
    ensures !MapSubmission.MatchesCodePattern(mapCode) ==> reply == Said(CODE_REJECTED)
    ensures MapSubmission.MatchesCodePattern(mapCode) && TimeConvert(record).BadNumber? ==> reply.Raised?
    ensures (MapSubmission.MatchesCodePattern(mapCode) && !TimeConvert(record).BadNumber?
      && !TimeAccepted(TimeConvert(record))) ==> reply == Said(INVALID_TIME)
    ensures (MapSubmission.MatchesCodePattern(mapCode) && TimeAccepted(TimeConvert(record)))
      ==> levels == Dedupe(UpperLevels(Take(known, 30)))
    ensures (MapSubmission.MatchesCodePattern(mapCode) && TimeAccepted(TimeConvert(record)) && !levelCompiles)
      ==> reply.Raised?
    ensures (MapSubmission.MatchesCodePattern(mapCode) && TimeAccepted(TimeConvert(record)) && levelCompiles
      && existing.Some? && TimeConvert(record).value >= existing.value.record) ==> reply == Said(NOT_FASTER)
    ensures reply.Asked? <==> GoesToConfirm(mapCode, record, existing) && levelCompiles
    ensures reply.Asked? ==> (fresh(reply.message) && reply.message.id == msgId
      && reply.confirmed == Outcome(events, author.id, msgId)
      && reply.message.content == SubmitNotice(reply.confirmed)
      && reply.message.reactions == {})
    ensures (reply.Asked? && reply.confirmed == Confirmed.Accepted) ==> (TimeConvert(record).Seconds?
      && journal.writes == old(journal.writes)
        + [Write.Committed(Committed(mapCode, level, record, existing, newId, author, cmd.id, url, hiddenMsgId))]
      && hidden == (if existing.Some? && existing.value.hiddenId.Some? && hiddenFound
                    then [HiddenDeleted(existing.value.hiddenId.value)] else []) + [HiddenPosted(hiddenMsgId)]
      && cmd.reactions == old(cmd.reactions) + {Mark(VERIFIED_EMOJI, botId), Mark(NOT_VERIFIED_EMOJI, botId)}
      && cmd.log == old(cmd.log) + [Added(VERIFIED_EMOJI), Added(NOT_VERIFIED_EMOJI)]
      && ranks == RankLines(Take(top, 10), if existing.Some? then existing.value.id else newId))
    ensures !(reply.Asked? && reply.confirmed == Confirmed.Accepted) ==> (journal.writes == old(journal.writes)
      && hidden == [] && ranks == [] && cmd.reactions == old(cmd.reactions) && cmd.log == old(cmd.log))
    ensures cmd.content == old(cmd.content)
  {
    levels, hidden, ranks := [], [], [];
    var codeOk := MapSubmission.CheckCodePattern(mapCode);
    if !codeOk {
      return Said(CODE_REJECTED), levels, hidden, ranks;
    }
    var code := Upper(mapCode);
    var lvl := Upper(level);
    var t := TimeConvert(record);
    if t.BadNumber? {
      return Raised("ValueError: could not convert string to float"), levels, hidden, ranks;
    }
    if t.NoTime? || t.value == 0.0 {
      return Said(INVALID_TIME), levels, hidden, ranks;
    }
    levels := CollectLevels(Take(known, 30));
    if !levelCompiles {
      return Raised("re.error"), levels, hidden, ranks;
    }
    if existing.Some? && t.value >= existing.value.record {
      return Said(NOT_FASTER), levels, hidden, ranks;
    }
    var document: RecordDocument;
    if existing.None? {
      document := new RecordDocument(PbRecord(newId, code, author.name, author.id, cmd.id, url, lvl, t.value,
                                              false, None));
    } else {
      document := new RecordDocument(existing.value);
    }
    reply, hidden, ranks := AskToConfirm(document, t.value, author, cmd, url, msgId, botId, events,
                                         hiddenFound, hiddenMsgId, top, journal);
  }

  /** The end of `submitpb`: ask the author to confirm, edit the question
      by the answer and run the accepted branch when accepted. */
  method AskToConfirm(document: RecordDocument, seconds: real, author: Member, cmd: Message, url: string,
                      msgId: int, botId: int, events: seq<Event>, hiddenFound: bool, hiddenMsgId: int,
                      top: seq<PbRecord>, journal: Journal<PbRecord>)
    returns (reply: Reply, hidden: seq<HiddenAction>, ranks: seq<string>)
    modifies document, cmd, journal
    ensures reply.Asked? && fresh(reply.message) && reply.message.id == msgId
      && reply.confirmed == Outcome(events, author.id, msgId)
      && reply.message.content == SubmitNotice(reply.confirmed)
      && reply.message.reactions == {}
    ensures reply.confirmed == Confirmed.Accepted ==> (journal.writes == old(journal.writes)
        + [Write.Committed(Accepted(old(document.Value()), seconds, author, cmd.id, url, hiddenMsgId))]
      && hidden == (if old(document.hiddenId).Some? && hiddenFound
                    then [HiddenDeleted(old(document.hiddenId).value)] else []) + [HiddenPosted(hiddenMsgId)]
      && cmd.reactions == old(cmd.reactions) + {Mark(VERIFIED_EMOJI, botId), Mark(NOT_VERIFIED_EMOJI, botId)}
      && cmd.log == old(cmd.log) + [Added(VERIFIED_EMOJI), Added(NOT_VERIFIED_EMOJI)]
      && document.Value() == Accepted(old(document.Value()), seconds, author, cmd.id, url, hiddenMsgId)
      && ranks == RankLines(Take(top, 10), document.id))
    ensures reply.confirmed != Confirmed.Accepted ==> (journal.writes == old(journal.writes)
      && hidden == [] && ranks == [] && cmd.reactions == old(cmd.reactions) && cmd.log == old(cmd.log)
      && document.Value() == old(document.Value()))
    ensures cmd.content == old(cmd.content)
  {
    hidden, ranks := [], [];
    var msg := new Message(msgId, "Is this correct?");
    var confirmed, _ := Confirm(msg, author.id, botId, events);
    if confirmed == Confirmed.Accepted {
      msg.Edit("Submission accepted");
      hidden, ranks := Accept(document, seconds, author, cmd, url, botId, hiddenFound, hiddenMsgId, top, journal);
    } else if confirmed == Rejected {
      msg.Edit("Submission has not been accepted.");
    } else if confirmed == Unanswered {
      msg.Edit("Submission timed out! Submission has not been accepted.");
    }
    reply := Asked(msg, confirmed);
  }

  // ----- deletepb -----

  /** `deletepb` goes on only for the poster holding a whitelisted role. */
  predicate MayDelete(search: PbRecord, author: Member, cfg: BotConfig)
  {
    search.postedBy == author.id && HasWhitelistedRole(author, cfg)
  }

  function DeleteNotice(confirmed: Confirmed): string
  {
    match confirmed
    case Accepted => "Personal best deleted succesfully."
    case Rejected => "Personal best was not deleted."
    case Unanswered => "Deletion timed out! Personal best has not been deleted."
  }

  /** The filter of `deletepb`; an empty name stands for the author's. */
  function DeleteQuery(mapCode: string, level: string, name: string, author: Member): Query
  {
    AllOf([Eq("code", Upper(mapCode)), Regex("level", Upper(level), true),
           Eq("name", if name == "" then author.name else name)])
  }

  /** `deletepb(ctx, map_code, level, name="")`; `levelCompiles` says
      whether `re.compile` accepts the upper-cased level, unescaped, and
      `search` is what `find_one` of `DeleteQuery` returns. */
  method Deletepb(mapCode: string, level: string, name: string, author: Member, cfg: BotConfig,
                  levelCompiles: bool, search: Option<PbRecord>, msgId: int, botId: int, events: seq<Event>,
                  journal: Journal<PbRecord>)
    returns (query: Query, reply: Reply)
    modifies journal
    ensures query == DeleteQuery(mapCode, level, name, author)
    ensures !levelCompiles ==> reply.Raised?
    ensures levelCompiles && search.None? ==> reply == Said(NOT_FOUND)
    ensures levelCompiles && search.Some? && !MayDelete(search.value, author, cfg) ==> reply == Said(NO_PERMISSION)
    ensures reply.Asked? <==> levelCompiles && search.Some? && MayDelete(search.value, author, cfg)
    ensures reply.Asked? ==> (fresh(reply.message) && reply.message.id == msgId
      && reply.confirmed == Outcome(events, author.id, msgId)
      && reply.message.content == DeleteNotice(reply.confirmed))
    ensures journal.writes == old(journal.writes)
      + (if reply.Asked? && reply.confirmed == Confirmed.Accepted then [Deleted(search.value)] else [])
  {
    var who := if name == "" then author.name else name;
    query := AllOf([Eq("code", Upper(mapCode)), Regex("level", Upper(level), true), Eq("name", who)]);
    if !levelCompiles {
      return query, Raised("re.error");
    }
    if search.None? {
      return query, Said(NOT_FOUND);
    }
    if search.value.postedBy != author.id || !HasWhitelistedRole(author, cfg) {
      return query, Said(NO_PERMISSION);
    }
    var msg := new Message(msgId, "Do you want to delete this?");
    var confirmed, _ := Confirm(msg, author.id, botId, events);
    if confirmed == Confirmed.Accepted {
      msg.Edit("Personal best deleted succesfully.");
      journal.Delete(search.value);
    } else if confirmed == Rejected {
      msg.Edit("Personal best was not deleted.");
    } else if confirmed == Unanswered {
      msg.Edit("Deletion timed out! Personal best has not been deleted.");
    }
    reply := Asked(msg, confirmed);
  }
}
