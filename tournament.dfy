/** The tournament helpers of internal/tournament_utils.py: which category
    a submission channel belongs to, which collection a category reads, and
    the tournament boards paged ten entries at a time. */
module TournamentUtils {
  import opened Common
  import opened Text

  /** `category_sort(message)`: the channel is compared against the
      time-attack, mildcore, hardcore and bonus channels in that order. */
  function CategorySort(channel: int, cfg: BotConfig): (r: Option<string>)
    ensures r.Some? <==> channel in {cfg.taChannel, cfg.mcChannel, cfg.hcChannel, cfg.bonusChannel}
    ensures channel == cfg.taChannel ==> r == Some("TIMEATTACK")
    ensures channel != cfg.taChannel && channel == cfg.mcChannel ==> r == Some("MILDCORE")
    ensures channel != cfg.taChannel && channel != cfg.mcChannel && channel == cfg.hcChannel
      ==> r == Some("HARDCORE")
    ensures r.Some? ==> r.value in CATEGORIES
  {
    if channel == cfg.taChannel then Some("TIMEATTACK")
    else if channel == cfg.mcChannel then Some("MILDCORE")
    else if channel == cfg.hcChannel then Some("HARDCORE")
    else if channel == cfg.bonusChannel then Some("BONUS")
    else None
  }

  const CATEGORIES: seq<string> := ["TIMEATTACK", "MILDCORE", "HARDCORE", "BONUS"]

  /** The four tournament collections. */
  datatype Collection = TimeAttackData | MildcoreData | HardcoreData | BonusData

  /** The collection `tournament_boards` reads: any category other than the
      first three falls through to the bonus collection. */
  function DataCategory(category: string): (c: Collection)
    ensures c == BonusData <==> category !in ["TIMEATTACK", "MILDCORE", "HARDCORE"]
  {
    if category == "TIMEATTACK" then TimeAttackData
    else if category == "MILDCORE" then MildcoreData
    else if category == "HARDCORE" then HardcoreData
    else BonusData
  }

  /** A TournamentData document (database/TournamentData.py). */
  datatype TournamentRecord = TournamentRecord(code: string, postedBy: int, record: real)

  /** `discord.utils.find(lambda m: m.id == id, members)`: the first member
      with that id. */
  function FindMember(members: seq<Member>, id: int): (r: Option<Member>)
    ensures r.Some? ==> r.value in members && r.value.id == id
    ensures r.None? ==> forall k :: 0 <= k < |members| ==> members[k].id != id
  {
    if members == [] then None
    else if members[0].id == id then Some(members[0])
    else FindMember(members[1..], id)
  }

  /** One field of a tournament board: the rank, the member found for the
      poster (None prints as "None") and the record. */
  datatype BoardField = BoardField(rank: nat, member: Option<Member>, record: real)

  /** The fields for `entries`, ranked from 1 in record order. */
  function Ranked(entries: seq<TournamentRecord>, members: seq<Member>): (fields: seq<BoardField>)
    ensures |fields| == |entries|
    ensures forall k :: 0 <= k < |entries| ==>
      fields[k] == BoardField(k + 1, FindMember(members, entries[k].postedBy), entries[k].record)
  {
    seq(|entries|, k requires 0 <= k < |entries| =>
      BoardField(k + 1, FindMember(members, entries[k].postedBy), entries[k].record))
  }

  /** Within the open embed of the `q`-th page, `(i + 1) % 10 == 0` holds
      exactly when entry `i` is its tenth. */
  lemma TenthOfPage(i: nat, q: nat)
    requires 10 * q <= i < 10 * q + 10
    ensures (i + 1) % 10 == 0 <==> i + 1 == 10 * q + 10
  {
  }

  /** What `tournament_boards` shows: embeds for the paginator, or a text. */
  datatype Boards = Pages(title: string, pages: seq<seq<BoardField>>) | Reply(text: string)

  /** `tournament_boards(ctx, category)`. `entries` is the collection sorted
      by record and `dataAmount` its document count, which is the number of
      entries the cursor yields. An embed is closed after every tenth field
      and after the last one. */
  method TournamentBoards(category: string, entries: seq<TournamentRecord>, dataAmount: nat,
                          members: seq<Member>)
    returns (out: Boards)
    requires dataAmount == |entries|
    ensures out.Reply? <==> entries == []
    ensures out.Reply? ==> out.text == "No times exist for the " + Lower(category) + " tournament!"
    ensures out.Pages? ==> out.title == category && out.pages == Chunks(Ranked(entries, members), 10)
  {
    ghost var fields := Ranked(entries, members);
    var count: nat := 0;
    var embed: seq<BoardField> := [];
    var embeds: seq<seq<BoardField>> := [];
    ghost var base: nat := 0;
    PagingStarts(fields, 10);
    while count < |entries|
      invariant Paging(fields, 10, count, base, embeds, embed)
    {
      TenthOfPage(count, |embeds|);
      var field := BoardField(count + 1, FindMember(members, entries[count].postedBy), entries[count].record);
      if (count + 1) % 10 == 0 || count + 1 == dataAmount {
        PagingCloses(fields, 10, count, base, embeds, embed);
        embeds := embeds + [embed + [field]];
        embed := [];
        if count + 1 < |entries| {
          base := count + 1;
        }
      } else {
        PagingKeeps(fields, 10, count, base, embeds, embed);
        embed := embed + [field];
      }
      count := count + 1;
    }
    if embeds != [] {
      out := Pages(category, embeds);
    } else {
      out := Reply("No times exist for the " + Lower(category) + " tournament!");
    }
  }

  /** Every ranked entry lands on exactly one page, in order; every page
      but the last holds ten fields and the last one to ten. */
  lemma TournamentPagesCover(entries: seq<TournamentRecord>, members: seq<Member>)
    ensures Flatten(Chunks(Ranked(entries, members), 10)) == Ranked(entries, members)
    ensures |Chunks(Ranked(entries, members), 10)| == CeilDiv(|entries|, 10)
    ensures forall k :: 0 <= k < |Chunks(Ranked(entries, members), 10)| ==>
      1 <= |Chunks(Ranked(entries, members), 10)[k]| <= 10
    ensures forall k :: 0 <= k < |Chunks(Ranked(entries, members), 10)| - 1 ==>
      |Chunks(Ranked(entries, members), 10)[k]| == 10
  {
    ChunksCover(Ranked(entries, members), 10);
  }
}
