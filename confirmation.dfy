/** The confirm / cancel reaction gate of internal/confirmation.py: the bot
    puts both emoji on its message, waits for the command author to react
    with one of them on that message, and clears the reactions whatever
    happened. */
module Confirmation {
  import opened Common
  import opened Chat
  import opened Constants

  /** The `check` of `confirm`: a confirm or cancel emoji, by the author,
      on this message. */
  function ConfirmFilter(author: int, messageId: int): Filter {
    Filter({CONFIRM_REACTION_EMOJI, CANCEL_REACTION_EMOJI}, author, Some(messageId))
  }

  lemma PassesConfirmFilter(author: int, messageId: int, e: Event)
    ensures Passes(ConfirmFilter(author, messageId), e) <==>
      e.Reacted? && (e.emoji == CONFIRM_REACTION_EMOJI || e.emoji == CANCEL_REACTION_EMOJI)
      && e.user == author && e.message == messageId
  {
  }

  /** What `confirm` returns for the events `wait_for` would see. */
  function Outcome(events: seq<Event>, author: int, messageId: int): Confirmed {
    var i := WaitFor(events, ConfirmFilter(author, messageId));
    if i == |events| || events[i].TimedOut? then Unanswered
    else if events[i].emoji == CONFIRM_REACTION_EMOJI then Accepted
    else Rejected
  }

  /** An event that does not pass the check is skipped. */
  lemma OutcomeSkips(e: Event, rest: seq<Event>, author: int, messageId: int)
    requires e.Reacted? && !Passes(ConfirmFilter(author, messageId), e)
    ensures Outcome([e] + rest, author, messageId) == Outcome(rest, author, messageId)
  {
    assert ([e] + rest)[1..] == rest;
  }

  /** The first qualifying reaction decides: confirm gives True, cancel gives False. */
  lemma OutcomeOfQualifying(e: Event, rest: seq<Event>, author: int, messageId: int)
    requires Passes(ConfirmFilter(author, messageId), e)
    ensures Outcome([e] + rest, author, messageId) ==
      if e.emoji == CONFIRM_REACTION_EMOJI then Accepted else Rejected
  {
  }

  /** A time-out before any qualifying reaction gives None, and so does an
      exhausted event sequence. */
  lemma OutcomeOfTimeout(rest: seq<Event>, author: int, messageId: int)
    ensures Outcome([TimedOut] + rest, author, messageId) == Unanswered
    ensures Outcome([], author, messageId) == Unanswered
  {
  }

  /** Events after the deciding one never change the outcome. */
  lemma OutcomeIgnoresLater(events: seq<Event>, later: seq<Event>, author: int, messageId: int)
    requires WaitFor(events, ConfirmFilter(author, messageId)) < |events|
    ensures Outcome(events + later, author, messageId) == Outcome(events, author, messageId)
  {
    var f := ConfirmFilter(author, messageId);
    WaitForIgnoresLater(events, later, f);
    assert (events + later)[WaitFor(events, f)] == events[WaitFor(events, f)];
  }

  /** True or False only ever come from a reaction that passes the check,
      with no time-out before it. */
  lemma OutcomeNeedsQualifying(events: seq<Event>, author: int, messageId: int)
    requires Outcome(events, author, messageId) != Unanswered
    ensures exists k :: (0 <= k < |events| && Passes(ConfirmFilter(author, messageId), events[k])
      && (forall j :: 0 <= j < k ==> !events[j].TimedOut?)
      && (Outcome(events, author, messageId) == Accepted <==> events[k].emoji == CONFIRM_REACTION_EMOJI))
  {
    var k := WaitFor(events, ConfirmFilter(author, messageId));
    assert forall j :: 0 <= j < k ==> !events[j].TimedOut?;
  }

  /** `confirm(ctx, message)`: add the confirm then the cancel emoji, wait,
      clear the reactions on every exit path and report the outcome. `at`
      is the position of the event `wait_for` returned at. */
  method Confirm(message: Message, author: int, botId: int, events: seq<Event>)
    returns (r: Confirmed, at: nat)
    modifies message
    ensures r == Outcome(events, author, message.id)
    ensures at == WaitFor(events, ConfirmFilter(author, message.id))
    ensures message.reactions == {}
    ensures message.log == old(message.log)
      + [Added(CONFIRM_REACTION_EMOJI), Added(CANCEL_REACTION_EMOJI), Cleared]
    ensures message.content == old(message.content)
  {
    message.AddReaction(CONFIRM_REACTION_EMOJI, botId);
    message.AddReaction(CANCEL_REACTION_EMOJI, botId);
    at := WaitFor(events, ConfirmFilter(author, message.id));
    if at == |events| || events[at].TimedOut? {
      message.ClearReactions();
      return Unanswered, at;
    }
    if events[at].emoji == CONFIRM_REACTION_EMOJI {
      message.ClearReactions();
      return Accepted, at;
    }
    message.ClearReactions();
    r := Rejected;
  }
}
