/**
 * The queue command (src/commands/queue.ts): the waiting tracks are shown ten
 * to a page, with Previous / Next / Refresh buttons that move a page number the
 * command keeps for one minute.
 *
 * The number of pages the buttons use is taken once, when the command runs;
 * each rendering recomputes its own from the live queue.
 */
module QueueCommand {
  import opened Wrappers
  import opened Text
  import opened Format
  import opened Tracks
  import opened Players
  import opened Guards

  const TracksPerPage: nat := 10

  /** `Math.max(1, Math.ceil(total / 10))`. */
  function TotalPages(total: nat): (r: nat)
    ensures r >= 1 && total <= r * TracksPerPage
    ensures r == 1 || (r - 1) * TracksPerPage < total
  {
    if total == 0 then 1 else (total + TracksPerPage - 1) / TracksPerPage
  }

  /** `getNumber('page') ?? 1`, then `Math.max(1, Math.min(page, totalPages))`. */
  function ClampPage(requested: Option<int>, total: nat): (r: int)
    ensures 1 <= r <= TotalPages(total)
    ensures var want := if requested.Some? then requested.value else 1;
      (1 <= want <= TotalPages(total) <==> r == want)
      && (want < 1 ==> r == 1)
      && (want > TotalPages(total) ==> r == TotalPages(total))
  {
    var want := if requested.Some? then requested.value else 1;
    var tp := TotalPages(total);
    if want < 1 then 1 else if want > tp then tp else want
  }

  /** `queue.slice(start, start + 10)` with `start = (page - 1) * 10`. */
  function PageTracks(tracks: seq<Track>, page: int): (r: seq<Track>)
    ensures |r| <= TracksPerPage
    ensures page >= 1 ==>
      r == tracks[SliceIndex((page - 1) * TracksPerPage, |tracks|)..SliceIndex(page * TracksPerPage, |tracks|)]
  {
    var start := (page - 1) * TracksPerPage;
    Slice(tracks, start, start + TracksPerPage)
  }

  /** The count after "+" in the footer: the tracks on later pages. */
  function Remaining(total: nat, page: int): nat {
    if total - page * TracksPerPage > 0 then total - page * TracksPerPage else 0
  }

  /**
   * A page in range splits the queue into the tracks of earlier pages, the
   * page's own (at least one) and the later ones; none are left over exactly
   * on the last page.
   */
  lemma PageAccountsForQueue(tracks: seq<Track>, page: int)
    requires 1 <= page <= TotalPages(|tracks|)
    ensures (page - 1) * TracksPerPage + |PageTracks(tracks, page)| + Remaining(|tracks|, page) == |tracks|
    ensures |tracks| > 0 ==> |PageTracks(tracks, page)| >= 1
    ensures Remaining(|tracks|, page) == 0 <==> page == TotalPages(|tracks|)
  {
    var tp := TotalPages(|tracks|);
    if |tracks| > 0 {
      assert (tp - 1) * TracksPerPage < |tracks|;
      assert (page - 1) * TracksPerPage <= (tp - 1) * TracksPerPage;
    }
    if page < tp {
      assert page * TracksPerPage <= (tp - 1) * TracksPerPage;
    }
  }

  /** Track k of the queue is shown on page k / 10 + 1, in row k % 10. */
  lemma EveryTrackOnItsPage(tracks: seq<Track>, k: nat)
    requires k < |tracks|
    ensures 1 <= k / TracksPerPage + 1 <= TotalPages(|tracks|)
    ensures k % TracksPerPage < |PageTracks(tracks, k / TracksPerPage + 1)|
    ensures PageTracks(tracks, k / TracksPerPage + 1)[k % TracksPerPage] == tracks[k]
  {
    var p := k / TracksPerPage + 1;
    var tp := TotalPages(|tracks|);
    assert (p - 1) * TracksPerPage + k % TracksPerPage == k;
    assert p <= tp by {
      assert (p - 1) * TracksPerPage <= k < tp * TracksPerPage;
    }
    var r := PageTracks(tracks, p);
    assert SliceIndex((p - 1) * TracksPerPage, |tracks|) == (p - 1) * TracksPerPage;
  }

  /** One row of the list: the running number and title, then the length and requester. */
  datatype Entry = Entry(name: string, value: string)

  function EntryOf(number: int, t: Track): Entry {
    Entry(IntToString(number) + ". " + TruncateWithEllipsis(t.title, 50),
          "┕ " + (if t.isStream then "실시간 스트리밍" else MsToTime(t.duration)) + " | " + t.requester)
  }

  /** The footer: "page/total 페이지" and the count of later tracks, or a blank when there is one page. */
  function Footer(page: int, totalPages: nat, remaining: int): string {
    if totalPages > 1 then
      IntToString(page) + "/" + IntToString(totalPages) + " 페이지\n+" + IntToString(remaining) + "곡"
    else " "
  }

  datatype PageView = PageView(title: string, description: string, entries: seq<Entry>, footer: string)

  /** `buildQueueEmbed`. */
  function Render(q: Queue, page: int): PageView {
    var start := (page - 1) * TracksPerPage;
    var tracks := PageTracks(q.tracks, page);
    PageView(
      "📋 현재 대기열 (" + MsToTime(Duration(q)) + ")",
      if q.current.Some? then "🎶 " + Hyperlink(TruncateWithEllipsis(q.current.value.title, 50), q.current.value.uri)
      else "현재 재생중인 음악이 없어요.",
      seq(|tracks|, i requires 0 <= i < |tracks| => EntryOf(start + i + 1, tracks[i])),
      EmbedFooter(q, page))
  }

  /** The footer `buildQueueEmbed` sets, from the live queue. */
  function EmbedFooter(q: Queue, page: int): string {
    Footer(page, TotalPages(|q.tracks|), Remaining(|q.tracks|, page))
  }

  /** Track k of the queue is listed as number k + 1 on its page. */
  lemma EveryTrackListed(q: Queue, k: nat)
    requires k < |q.tracks|
    ensures k % TracksPerPage < |Render(q, k / TracksPerPage + 1).entries|
    ensures Render(q, k / TracksPerPage + 1).entries[k % TracksPerPage] == EntryOf(k + 1, q.tracks[k])
  {
    EveryTrackOnItsPage(q.tracks, k);
    assert (k / TracksPerPage) * TracksPerPage + k % TracksPerPage + 1 == k + 1;
  }

  /** The footer the command computes from `end` (and never sends) is the one the embed shows. */
  lemma FootersAgree(q: Queue, page: int)
    ensures var end := (page - 1) * TracksPerPage + TracksPerPage;
      Footer(page, TotalPages(|q.tracks|), if |q.tracks| - end > 0 then |q.tracks| - end else 0)
      == EmbedFooter(q, page)
  {
  }

  /** Previous and Next are greyed out on the first and last page. */
  datatype ButtonRow = ButtonRow(previousDisabled: bool, nextDisabled: bool)

  function Buttons(page: int, totalPages: int): ButtonRow {
    ButtonRow(page <= 1, page >= totalPages)
  }

  const PreviousId := "queue_previous"
  const NextId := "queue_next"
  const RefreshId := "queue_refresh"

  /** The page after a button press; other components leave it alone. */
  function NextPage(page: int, totalPages: int, customId: string): (r: int)
    ensures 1 <= page <= totalPages ==> 1 <= r <= totalPages && page - 1 <= r <= page + 1
  {
    if customId == PreviousId && page > 1 then page - 1
    else if customId == NextId && page < totalPages then page + 1
    else if customId == RefreshId then (if page < 1 then 1 else if page > totalPages then totalPages else page)
    else page
  }

  /** A greyed-out button is exactly one whose press would not move the page; Refresh never does. */
  lemma ButtonsMatchMoves(page: int, totalPages: int)
    requires 1 <= page <= totalPages
    ensures Buttons(page, totalPages).previousDisabled <==> NextPage(page, totalPages, PreviousId) == page
    ensures Buttons(page, totalPages).nextDisabled <==> NextPage(page, totalPages, NextId) == page
    ensures NextPage(page, totalPages, RefreshId) == page
  {
  }

  /** Pressing Next enough times from any page reaches the last one. */
  function PressNext(page: int, totalPages: int, times: nat): int
    decreases times
  {
    if times == 0 then page else PressNext(NextPage(page, totalPages, NextId), totalPages, times - 1)
  }

  lemma {:induction false} NextReachesLastPage(page: int, totalPages: int)
    requires 1 <= page <= totalPages
    ensures PressNext(page, totalPages, totalPages - page) == totalPages
    decreases totalPages - page
  {
    if page < totalPages {
      NextReachesLastPage(page + 1, totalPages);
    }
  }

  /** The reply to `/queue`. InvalidPage is in the code but cannot be reached. */
  datatype Reply =
    | NotAllowed
    | EmptyQueue
    | InvalidPage(totalPages: nat)
    | Shown(page: int, view: PageView, buttons: ButtonRow)

  /** What the command shows for the queue once the player has passed the guard. */
  function QueueView(q: Queue, requested: Option<int>): (r: Reply)
    ensures r != NotAllowed
    ensures r == EmptyQueue <==> |q.tracks| == 0
    ensures r.Shown? ==>
      (r.page == ClampPage(requested, |q.tracks|) && r.view == Render(q, r.page)
       && r.buttons == Buttons(r.page, TotalPages(|q.tracks|)))
  {
    var total := |q.tracks|;
    var tp := TotalPages(total);
    var page := ClampPage(requested, total);
    if total == 0 then EmptyQueue
    else if page < 1 || page > tp then InvalidPage(tp)
    else Shown(page, Render(q, page), Buttons(page, tp))
  }

  /** The command: the player must be playing (src/utils/playerUtils.ts). */
  function QueueReply(players: map<string, Player>, guildId: string, requested: Option<int>): (r: Reply)
    reads players.Values
    ensures !PlayingLegacy(players, guildId) <==> r == NotAllowed
    ensures r != NotAllowed ==> r == QueueView(players[guildId].queue, requested)
  {
    if !PlayingLegacy(players, guildId) then NotAllowed
    else QueueView(players[guildId].queue, requested)
  }

  /** The invalid-page reply is dead code: every page shown is the clamped one, in range. */
  lemma InvalidPageUnreachable(q: Queue, requested: Option<int>)
    ensures !QueueView(q, requested).InvalidPage?
    ensures QueueView(q, requested).Shown? ==> 1 <= QueueView(q, requested).page <= TotalPages(|q.tracks|)
  {
  }

  /**
   * The page number the button collector keeps. Only the member who ran the
   * command moves it; anyone else gets an error reply.
   */
  class Pager {
    const owner: string
    const totalPages: nat
    var page: int

    predicate Valid()
      reads this
    {
      1 <= page <= totalPages
    }

    constructor(owner: string, requested: Option<int>, total: nat)
      ensures Valid()
      ensures this.owner == owner && totalPages == TotalPages(total)
      ensures page == ClampPage(requested, total)
    {
      this.owner := owner;
      totalPages := TotalPages(total);
      page := ClampPage(requested, total);
    }

    /** One collected component interaction; `rejected` is the filter's "other user" reply. */
    method Collect(user: string, customId: string) returns (rejected: bool)
      requires Valid()
      modifies this
      ensures Valid()
      ensures rejected <==> user != owner
      ensures page == if rejected then old(page) else NextPage(old(page), totalPages, customId)
    {
      if user != owner {
        return true;
      }
      page := NextPage(page, totalPages, customId);
      return false;
    }
  }
}
