/** The older personal-best cog, cogs/submitpersonalbest.py: `submitpb`
    branches on how many documents the author has for the exact level (0:
    new, 1: update when strictly faster, more: nothing), and `deletepb`
    lets the poster OR a whitelisted role delete. */
module LegacyPersonalBestSubmission {
  import opened Common
  import opened Text
  import opened Chat
  import opened Constants
  import opened Confirmation
  import opened Documents
  import opened Utilities
  import LegacyMapSubmission
  import PB = PersonalBestSubmission

  /** The `level_checker` loop: the set of level names, as stored. */
  method CollectLevelSet(rows: seq<PbRecord>) returns (levels: set<string>)
    ensures levels == set k | 0 <= k < |rows| :: rows[k].level
  {
    levels := {};
    var k := 0;
    while k < |rows|
      invariant k <= |rows|
      invariant levels == set j | 0 <= j < k :: rows[j].level
    {
      if rows[k].level !in levels {
        levels := levels + {rows[k].level};
      }
      assert (set j | 0 <= j < k + 1 :: rows[j].level) == (set j | 0 <= j < k :: rows[j].level) + {rows[k].level};
      k := k + 1;
    }
  }

  /** When the older `submitpb` asks for confirmation: letters and digits
      only (the empty code passes), a non-zero time, and either no
      document of the author for the exact level or exactly one that the
      new time beats. */
  predicate GoesToConfirm(mapCode: string, record: string, matches: seq<PbRecord>)
  {
    AllAsciiAlnum(mapCode) && PB.TimeAccepted(TimeConvert(record))
    && (|matches| == 0 || (|matches| == 1 && TimeConvert(record).value < matches[0].record))
  }

  /** The fields an accepted submission commits: a new document keeps the
      level as typed, an update keeps the stored document's. */
  function Committed(mapCode: string, level: string, record: string, matches: seq<PbRecord>, newId: int,
                     author: Member, messageId: int, url: string, hiddenId: int): PbRecord
    requires TimeConvert(record).Seconds? && |matches| <= 1
  {
    var t := TimeConvert(record).value;
    if |matches| == 0 then
      PbRecord(newId, Upper(mapCode), author.name, author.id, messageId, url, level, t, false, Some(hiddenId))
    else PB.Accepted(matches[0], t, author, messageId, url, hiddenId)
  }

  /** The older cog commits the same record as the newer one, except that
      a new document keeps the level as typed rather than upper-cased. */
  lemma CommittedAgrees(mapCode: string, level: string, record: string, matches: seq<PbRecord>, newId: int,
                        author: Member, messageId: int, url: string, hiddenId: int)
    requires GoesToConfirm(mapCode, record, matches)
    ensures |matches| == 1 ==> (PB.GoesToConfirm(mapCode, record, Some(matches[0])) <==> mapCode != "" && AllAsciiAlnum(mapCode))
    ensures |matches| == 1 && mapCode != "" ==> (Committed(mapCode, level, record, matches, newId, author, messageId, url, hiddenId)
      == PB.Committed(mapCode, level, record, Some(matches[0]), newId, author, messageId, url, hiddenId))
    ensures |matches| == 0 && mapCode != "" ==> (Committed(mapCode, level, record, matches, newId, author, messageId, url, hiddenId)
      == PB.Committed(mapCode, level, record, None, newId, author, messageId, url, hiddenId).(level := level))
    ensures |matches| == 1 ==> (Committed(mapCode, level, record, matches, newId, author, messageId, url, hiddenId).record
      < matches[0].record)
  {
  }

  datatype Reply = Said(text: string) | Silent | Asked(message: Message, confirmed: Confirmed) | Raised(error: string)

  /** `submitpb(ctx, map_code, level, record)`. `known` are the documents
      of the code by record; `matches` those of the author for the code
      and the exact level; `top` those of the level by record after the
      commit; the rest as for the newer cog. */
  method Submitpb(mapCode: string, level: string, record: string, author: Member, cmd: Message, url: string,
                  known: seq<PbRecord>, matches: seq<PbRecord>, newId: int, msgId: int, botId: int,
                  events: seq<Event>, hiddenFound: bool, hiddenMsgId: int, top: seq<PbRecord>,
                  journal: Journal<PbRecord>)
    returns (reply: Reply, levels: set<string>, hidden: seq<PB.HiddenAction>, ranks: seq<string>)
    modifies cmd, journal
    ensures !AllAsciiAlnum(mapCode) ==> reply == Said(PB.CODE_REJECTED)
    ensures AllAsciiAlnum(mapCode) && TimeConvert(record).BadNumber? ==> reply.Raised?
    ensures AllAsciiAlnum(mapCode) && !TimeConvert(record).BadNumber? ==>
      levels == set k | 0 <= k < |Take(known, 30)| :: Take(known, 30)[k].level
    ensures (AllAsciiAlnum(mapCode) && !TimeConvert(record).BadNumber? && !PB.TimeAccepted(TimeConvert(record)))
      ==> reply == Silent
    ensures (AllAsciiAlnum(mapCode) && PB.TimeAccepted(TimeConvert(record)) && |matches| >= 2) ==> reply == Silent
    ensures (AllAsciiAlnum(mapCode) && PB.TimeAccepted(TimeConvert(record)) && |matches| == 1
      && TimeConvert(record).value >= matches[0].record) ==> reply == Said(PB.NOT_FASTER)
    ensures reply.Asked? <==> GoesToConfirm(mapCode, record, matches)
    ensures reply.Asked? ==> (fresh(reply.message) && reply.message.id == msgId
      && reply.confirmed == Outcome(events, author.id, msgId)
      && reply.message.reactions == {})
    ensures (reply.Asked? && reply.confirmed == Confirmed.Accepted) ==> (TimeConvert(record).Seconds?
      && |matches| <= 1
      && journal.writes == old(journal.writes)
        + [Write.Committed(Committed(mapCode, level, record, matches, newId, author, cmd.id, url, hiddenMsgId))]
      && hidden == (if |matches| == 1 && matches[0].hiddenId.Some? && hiddenFound
                    then [PB.HiddenDeleted(matches[0].hiddenId.value)] else []) + [PB.HiddenPosted(hiddenMsgId)]
      && cmd.reactions == old(cmd.reactions) + {Mark(VERIFIED_EMOJI, botId), Mark(NOT_VERIFIED_EMOJI, botId)}
      && cmd.log == old(cmd.log) + [Added(VERIFIED_EMOJI), Added(NOT_VERIFIED_EMOJI)]
      && ranks == PB.RankLines(Take(top, 10), if |matches| == 1 then matches[0].id else newId))
    ensures !(reply.Asked? && reply.confirmed == Confirmed.Accepted) ==> (journal.writes == old(journal.writes)
      && hidden == [] && ranks == [] && cmd.reactions == old(cmd.reactions) && cmd.log == old(cmd.log))
    ensures cmd.content == old(cmd.content)
  {
    levels, hidden, ranks := {}, [], [];
    var codeOk := LegacyMapSubmission.CheckCode(mapCode);
    if !codeOk {
      return Said(PB.CODE_REJECTED), levels, hidden, ranks;
    }
    var t := TimeConvert(record);
    if t.BadNumber? {
      return Raised("ValueError: could not convert string to float"), levels, hidden, ranks;
    }
    levels := CollectLevelSet(Take(known, 30));
    if t.NoTime? || t.value == 0.0 {
      return Silent, levels, hidden, ranks;
    }
    if |matches| >= 2 {
      return Silent, levels, hidden, ranks;
    }
    if |matches| == 1 && t.value >= matches[0].record {
      return Said(PB.NOT_FASTER), levels, hidden, ranks;
    }
    var msg := new Message(msgId, "Is this correct?");
    var confirmed, _ := Confirm(msg, author.id, botId, events);
    if confirmed == Confirmed.Accepted {
      msg.Edit("Submission accepted");
      hidden, ranks := SaveAccepted(mapCode, level, record, matches, newId, author, cmd, url, botId, hiddenFound,
                                    hiddenMsgId, top, journal);
    } else if confirmed == Rejected {
      msg.Edit("Submission has not been accepted.");
    } else if confirmed == Unanswered {
      msg.Edit("Submission timed out! Submission has not been accepted.");
    }
    reply := Asked(msg, confirmed);
  }

  /** The accepted branch of the older `submitpb`: a new document, or the
      single matching one, goes through the newer cog's accepted branch;
      the old hidden message can only be dropped when one matched. */
  method SaveAccepted(mapCode: string, level: string, record: string, matches: seq<PbRecord>, newId: int,
                      author: Member, cmd: Message, url: string, botId: int, hiddenFound: bool, hiddenMsgId: int,
                      top: seq<PbRecord>, journal: Journal<PbRecord>)
    returns (hidden: seq<PB.HiddenAction>, ranks: seq<string>)
    requires TimeConvert(record).Seconds? && |matches| <= 1
    modifies cmd, journal
    ensures journal.writes == old(journal.writes)
      + [Write.Committed(Committed(mapCode, level, record, matches, newId, author, cmd.id, url, hiddenMsgId))]
    ensures hidden == (if |matches| == 1 && matches[0].hiddenId.Some? && hiddenFound
                       then [PB.HiddenDeleted(matches[0].hiddenId.value)] else []) + [PB.HiddenPosted(hiddenMsgId)]
    ensures cmd.reactions == old(cmd.reactions) + {Mark(VERIFIED_EMOJI, botId), Mark(NOT_VERIFIED_EMOJI, botId)}
    ensures cmd.content == old(cmd.content)
      && cmd.log == old(cmd.log) + [Added(VERIFIED_EMOJI), Added(NOT_VERIFIED_EMOJI)]
    ensures ranks == PB.RankLines(Take(top, 10), if |matches| == 1 then matches[0].id else newId)
  {
    var t := TimeConvert(record);
    var document: RecordDocument;
    if |matches| == 0 {
      document := new RecordDocument(PbRecord(newId, Upper(mapCode), author.name, author.id, cmd.id, url, level,
                                              t.value, false, None));
    } else {
      document := new RecordDocument(matches[0]);
    }
    hidden, ranks := PB.Accept(document, t.value, author, cmd, url, botId, hiddenFound && |matches| == 1,
                               hiddenMsgId, top, journal);
  }

  /** The older rule: the poster OR a whitelisted role. */
  predicate MayDelete(search: PbRecord, author: Member, cfg: BotConfig)
  {
    search.postedBy == author.id || HasWhitelistedRole(author, cfg)
  }

  /** The newer cog tightened the rule: whoever may delete now could
      delete before, while a poster without a whitelisted role (or a
      moderator deleting someone else's record) no longer can. */
  lemma DeleteRuleTightened(search: PbRecord, author: Member, cfg: BotConfig)
    ensures PB.MayDelete(search, author, cfg) ==> MayDelete(search, author, cfg)
    ensures search.postedBy == author.id && !HasWhitelistedRole(author, cfg)
      ==> MayDelete(search, author, cfg) && !PB.MayDelete(search, author, cfg)
    ensures search.postedBy != author.id && HasWhitelistedRole(author, cfg)
      ==> MayDelete(search, author, cfg) && !PB.MayDelete(search, author, cfg)
  {
  }

  /** `deletepb(ctx, map_code, level, name="")`; `matches` are the
      documents with the upper-cased code, the exact level and the name
      (the author's when empty). */
  method Deletepb(mapCode: string, level: string, name: string, author: Member, cfg: BotConfig,
                  matches: seq<PbRecord>, msgId: int, botId: int, events: seq<Event>,
                  journal: Journal<PbRecord>)
    returns (query: Query, reply: Reply)
    modifies journal
    ensures query == AllOf([Eq("code", Upper(mapCode)), Eq("level", level),
                            Eq("name", if name == "" then author.name else name)])
    ensures |matches| != 1 ==> reply == Said(PB.NOT_FOUND)
    ensures |matches| == 1 && !MayDelete(matches[0], author, cfg) ==> reply == Said("You cannot delete that!")
    ensures reply.Asked? <==> |matches| == 1 && MayDelete(matches[0], author, cfg)
    ensures reply.Asked? ==> (fresh(reply.message) && reply.message.id == msgId
      && reply.confirmed == Outcome(events, author.id, msgId)
      && reply.message.content == PB.DeleteNotice(reply.confirmed))
    ensures journal.writes == old(journal.writes)
      + (if reply.Asked? && reply.confirmed == Confirmed.Accepted then [Deleted(matches[0])] else [])
  {
    var who := if name == "" then author.name else name;
    query := AllOf([Eq("code", Upper(mapCode)), Eq("level", level), Eq("name", who)]);
    if |matches| != 1 {
      return query, Said(PB.NOT_FOUND);
    }
    var search := matches[0];
    if !(search.postedBy == author.id || HasWhitelistedRole(author, cfg)) {
      return query, Said("You cannot delete that!");
    }
    var msg := new Message(msgId, "Do you want to delete this?");
    var confirmed, _ := Confirm(msg, author.id, botId, events);
    if confirmed == Confirmed.Accepted {
      msg.Edit("Personal best deleted succesfully.");
      journal.Delete(search);
    } else if confirmed == Rejected {
      msg.Edit("Personal best was not deleted.");
    } else if confirmed == Unanswered {
      msg.Edit("Deletion timed out! Personal best has not been deleted.");
    }
    reply := Asked(msg, confirmed);
  }
}
