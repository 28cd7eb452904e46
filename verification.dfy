/** The verification listener, cogs/verification.py: a whitelisted
    moderator reacting to a submitted record with the verified or the
    not-verified emoji sets the record's `verified` flag; deleting the
    submission message deletes the record. The moderators' copy ("hidden"
    message) is deleted in both cases; whether fetching it succeeds is a
    parameter. */
module Verification {
  import opened Common
  import opened Chat
  import opened Constants
  import opened Documents

  /** `cog_check`: the record channel only. */
  predicate CogCheck(channel: int, cfg: BotConfig)
  {
    channel == cfg.recordChannel
  }

  /** The fields of a `RawReactionActionEvent` the listener reads. */
  datatype Payload = Payload(userId: int, member: Member, messageId: int, emoji: string)

  /** The direct message to the submitter: who decided, the verdict and
      the record it is about. */
  datatype Notice = Notice(verified: bool, moderator: string, code: string, level: string, record: real)

  datatype Handling =
    | Ignored
    | Raised(error: string)                            // fetching the hidden message failed
    | Handled(hiddenDeleted: int, notice: Option<Notice>)

  /** The verdict an emoji carries: Some(true) for the verified emoji,
      Some(false) for the not-verified one, None for any other. */
  function Verdict(emoji: string): (v: Option<bool>)
    ensures v == Some(true) <==> emoji == VERIFIED_EMOJI
    ensures v == Some(false) <==> emoji == NOT_VERIFIED_EMOJI
  {
    if emoji == VERIFIED_EMOJI then Some(true)
    else if emoji == NOT_VERIFIED_EMOJI then Some(false)
    else None
  }

  /** The record after a reaction: only `verified` changes, and only for a
      verdict emoji. */
  function Reviewed(emoji: string, r: PbRecord): (s: PbRecord)
    ensures Verdict(emoji).None? ==> s == r
    ensures Verdict(emoji).Some? ==> s == r.(verified := Verdict(emoji).value)
  {
    match Verdict(emoji)
    case Some(v) => r.(verified := v)
    case None => r
  }

  /** The latest verdict wins, a repeated one changes nothing, and every
      field but `verified` survives any sequence of reactions. */
  lemma ReviewedLastWins(e1: string, e2: string, r: PbRecord)
    ensures Verdict(e2).Some? ==> Reviewed(e2, Reviewed(e1, r)) == Reviewed(e2, r)
    ensures Reviewed(e1, Reviewed(e1, r)) == Reviewed(e1, r)
    ensures Reviewed(e2, Reviewed(e1, r)).(verified := r.verified) == r
  {
  }

  /** Whether the listener acts on a reaction at all. */
  predicate Acts(payload: Payload, search: Option<PbRecord>, cfg: BotConfig)
  {
    payload.userId != cfg.botId && HasWhitelistedRole(payload.member, cfg)
    && search.Some? && search.value.messageId == payload.messageId
  }

  /** `on_raw_reaction_add(payload)`. `search` is the record whose
      `message_id` is the reacted message's, `msg` the reacted message, and
      `hiddenFound` whether the hidden message could be fetched. */
  method OnRawReactionAdd(payload: Payload, search: Option<PbRecord>, msg: Message, hiddenFound: bool,
                          cfg: BotConfig, journal: Journal<PbRecord>)
    returns (h: Handling)
    modifies msg, journal
    ensures !Acts(payload, search, cfg) ==> h == Ignored
    ensures h.Ignored? <==> !Acts(payload, search, cfg)
    ensures Acts(payload, search, cfg) && !(hiddenFound && search.value.hiddenId.Some?) ==> h.Raised?
    ensures h.Handled? <==> Acts(payload, search, cfg) && hiddenFound && search.value.hiddenId.Some?
    ensures !h.Handled? ==> (journal.writes == old(journal.writes) && msg.reactions == old(msg.reactions)
      && msg.log == old(msg.log))
    ensures h.Handled? ==> (h.hiddenDeleted == search.value.hiddenId.value
      && msg.reactions == {} && msg.log == old(msg.log) + [Cleared]
      && journal.writes == old(journal.writes)
        + (if Verdict(payload.emoji).Some? then [Write.Committed(Reviewed(payload.emoji, search.value))] else [])
      && (h.notice.Some? <==> Verdict(payload.emoji).Some?)
      && (h.notice.Some? ==> h.notice.value == Notice(Verdict(payload.emoji).value, payload.member.name,
            search.value.code, search.value.level, search.value.record)))
    ensures msg.content == old(msg.content)
  {
    if payload.userId == cfg.botId {
      return Ignored;
    }
    if !HasWhitelistedRole(payload.member, cfg) {
      return Ignored;
    }
    if search.None? || payload.messageId != search.value.messageId {
      return Ignored;
    }
    var doc := new RecordDocument(search.value);
    if !hiddenFound || doc.hiddenId.None? {
      return Raised("NotFound: Unknown Message");
    }
    var hidden := doc.hiddenId.value;
    var notice: Option<Notice> := None;
    if payload.emoji == VERIFIED_EMOJI {
      doc.verified := true;
      journal.Commit(doc.Value());
      notice := Some(Notice(true, payload.member.name, doc.code, doc.level, doc.record));
    } else if payload.emoji == NOT_VERIFIED_EMOJI {
      doc.verified := false;
      journal.Commit(doc.Value());
      notice := Some(Notice(false, payload.member.name, doc.code, doc.level, doc.record));
    }
    msg.ClearReactions();
    h := Handled(hidden, notice);
  }

  /** `on_raw_message_delete(payload)`: `search` is the record of the
      deleted message. The record is deleted whatever happens to the
      hidden message; that one is deleted when it could be fetched. */
  method OnRawMessageDelete(search: Option<PbRecord>, hiddenFound: bool, journal: Journal<PbRecord>)
    returns (hiddenDeleted: Option<int>)
    modifies journal
    ensures journal.writes == old(journal.writes) + (if search.Some? then [Deleted(search.value)] else [])
    ensures hiddenDeleted.Some? <==> search.Some? && hiddenFound && search.value.hiddenId.Some?
    ensures hiddenDeleted.Some? ==> hiddenDeleted == search.value.hiddenId
  {
    hiddenDeleted := None;
    if search.Some? {
      var r := search.value;
      // try: fetch and delete the hidden message; a failure is swallowed
      if hiddenFound && r.hiddenId.Some? {
        hiddenDeleted := r.hiddenId;
      }
      // finally: the record goes
      journal.Delete(r);
    }
  }
}
