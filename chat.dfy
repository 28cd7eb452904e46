/** The parts of Discord and MongoDB the commands touch, as state:
    a sent message with its reactions and what the bot did to it, the
    reaction events that `wait_for` receives, and the journal of database
    writes. Queries are values; their results are given sequences. */
module Chat {
  import opened Common

  /** A reaction on a message: which emoji, and which user put it there. */
  datatype Mark = Mark(emoji: string, user: int)

  /** What the bot did to one of its messages, in order. */
  datatype Action =
    | Added(emoji: string)
    | Removed(emoji: string, user: int)
    | Cleared
    | Edited(content: string)

  /** What `wait_for("reaction_add", ...)` can receive: a reaction by a
      user on a message, or the end of its waiting time. */
  datatype Event = Reacted(emoji: string, user: int, message: int) | TimedOut

  /** The `check` a command passes to `wait_for`: the emoji it listens
      for, the user who must react, and, when given, the message the
      reaction must be on. */
  datatype Filter = Filter(emojis: set<string>, author: int, message: Option<int>)

  predicate Passes(f: Filter, e: Event) {
    e.Reacted? && e.emoji in f.emojis && e.user == f.author
    && (f.message.Some? ==> e.message == f.message.value)
  }

  /** The position at which `wait_for` returns: the first event that is a
      time-out or passes the filter; `|events|` when the events run out,
      which is read as a time-out too. */
  function WaitFor(events: seq<Event>, f: Filter): (i: nat)
    ensures i <= |events|
    ensures forall k :: 0 <= k < i ==> events[k].Reacted? && !Passes(f, events[k])
    ensures i < |events| ==> events[i].TimedOut? || Passes(f, events[i])
  {
    if events == [] then 0
    else if events[0].TimedOut? || Passes(f, events[0]) then 0
    else 1 + WaitFor(events[1..], f)
  }

  /** A position with the three properties above is the one WaitFor gives. */
  lemma {:induction false} WaitForIsFirst(events: seq<Event>, f: Filter, i: nat)
    requires i <= |events|
    requires forall k :: 0 <= k < i ==> events[k].Reacted? && !Passes(f, events[k])
    requires i < |events| ==> events[i].TimedOut? || Passes(f, events[i])
    ensures WaitFor(events, f) == i
  {
    if i > 0 {
      WaitForIsFirst(events[1..], f, i - 1);
    }
  }

  /** Events after the one `wait_for` returns at are never looked at. */
  lemma {:induction false} WaitForIgnoresLater(events: seq<Event>, later: seq<Event>, f: Filter)
    requires WaitFor(events, f) < |events|
    ensures WaitFor(events + later, f) == WaitFor(events, f)
  {
    if events[0].TimedOut? || Passes(f, events[0]) {
      assert (events + later)[0] == events[0];
    } else {
      assert (events + later)[1..] == events[1..] + later;
      WaitForIgnoresLater(events[1..], later, f);
    }
  }

  /** A message the bot sent: its text, the reactions the bot put on it,
      and everything the bot did to it. The users' own reactions are
      events, not marks here, so removing one changes only the log. */
  class Message {
    const id: int
    var content: string
    var reactions: set<Mark>
    var log: seq<Action>

    constructor (id: int, content: string)
      ensures this.id == id && this.content == content
      ensures reactions == {} && log == []
    {
      this.id := id;
      this.content := content;
      reactions := {};
      log := [];
    }

    /** `message.add_reaction(emoji)`, made by the account `account`. */
    method AddReaction(emoji: string, account: int)
      modifies this
      ensures reactions == old(reactions) + {Mark(emoji, account)}
      ensures log == old(log) + [Added(emoji)]
      ensures content == old(content)
    {
      reactions := reactions + {Mark(emoji, account)};
      log := log + [Added(emoji)];
    }

    /** `message.remove_reaction(emoji, user)` */
    method RemoveReaction(emoji: string, user: int)
      modifies this
      ensures reactions == old(reactions) - {Mark(emoji, user)}
      ensures log == old(log) + [Removed(emoji, user)]
      ensures content == old(content)
    {
      reactions := reactions - {Mark(emoji, user)};
      log := log + [Removed(emoji, user)];
    }

    /** `message.clear_reactions()` */
    method ClearReactions()
      modifies this
      ensures reactions == {}
      ensures log == old(log) + [Cleared]
      ensures content == old(content)
    {
      reactions := {};
      log := log + [Cleared];
    }

    /** `message.edit(content=...)` */
    method Edit(text: string)
      modifies this
      ensures content == text
      ensures log == old(log) + [Edited(text)]
      ensures reactions == old(reactions)
    {
      content := text;
      log := log + [Edited(text)];
    }

  }

  /** A database write: `doc.commit()` or `doc.delete()`. */
  datatype Write<D> = Committed(doc: D) | Deleted(doc: D)

  /** The writes a command made, in order. */
  class Journal<D> {
    var writes: seq<Write<D>>

    constructor ()
      ensures writes == []
    {
      writes := [];
    }

    method Commit(d: D)
      modifies this
      ensures writes == old(writes) + [Committed(d)]
    {
      writes := writes + [Committed(d)];
    }

    method Delete(d: D)
      modifies this
      ensures writes == old(writes) + [Deleted(d)]
    {
      writes := writes + [Deleted(d)];
    }
  }

  /** A MongoDB filter document, as the commands build it. */
  datatype Query =
    | Everything                                      // {}
    | Eq(field: string, value: string)                // {field: value}
    | EqInt(field: string, number: int)               // {field: number}
    | EqBool(field: string, flag: bool)               // {field: flag}
    | NotIn(field: string, values: seq<string>)       // {field: {"$nin": values}}
    | Regex(field: string, pattern: string, ignoreCase: bool)
    | AnyOf(alternatives: seq<Query>)                 // {"$or": [...]}
    | AllOf(conditions: seq<Query>)                   // several keys in one document
}
