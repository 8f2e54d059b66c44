/**
 * The ticket store (database.py): the `tickets` table with its row operations
 * and queries, and the `blacklist` table. `time.time()` is the `now` parameter
 * of every write that stamps a row.
 */
module Database {
  import opened Wrappers

  /** The values the bot writes to the `status` column. */
  datatype Status = Open | InProgress | Solved | Rejected | Closed

  /** The text of a status, as stored and as `STATUS_PREFIXES` keys it. */
  function StatusKey(s: Status): string {
    match s
    case Open => "open"
    case InProgress => "in_progress"
    case Solved => "solved"
    case Rejected => "rejected"
    case Closed => "closed"
  }

  /** The status a key names, if it names one. */
  function StatusOfKey(key: string): (r: Option<Status>)
    ensures r.Some? ==> StatusKey(r.value) == key
  {
    match key
    case "open" => Some(Open)
    case "in_progress" => Some(InProgress)
    case "solved" => Some(Solved)
    case "rejected" => Some(Rejected)
    case "closed" => Some(Closed)
    case _ => None
  }

  /** Every status is read back from its own key, so keys and statuses correspond one to one. */
  lemma StatusOfKeyOfStatus(s: Status)
    ensures StatusOfKey(StatusKey(s)) == Some(s)
  {
  }

  /** `status IN ('open','in_progress')` */
  predicate IsActive(s: Status) {
    s == Open || s == InProgress
  }

  /** `status IN ('closed','solved','rejected')` */
  predicate IsFinished(s: Status) {
    s == Closed || s == Solved || s == Rejected
  }

  /**
   * A row of `tickets`, its columns in table order (`record[0]` is `id`,
   * `record[3]` `creator_id`, `record[4]` `is_private`, `record[5]` `status`,
   * `record[9]` `claimed_by`, `record[10]` `last_user_message_at`); the
   * nullable columns are options. `is_private` only ever holds 0 or 1.
   */
  datatype Ticket = Ticket(
    id: int,
    guildId: int,
    threadId: int,
    creatorId: int,
    isPrivate: bool,
    status: Status,
    title: string,
    createdAt: int,
    updatedAt: int,
    claimedBy: Option<int>,
    lastUserMessageAt: Option<int>,
    closedAt: Option<int>)

  /** The table constraints the operations keep: ids ascending in row order and below the next id, `thread_id` UNIQUE. */
  predicate IsTable(rows: seq<Ticket>, nextId: int) {
    && (forall i, j :: 0 <= i < j < |rows| ==> rows[i].id < rows[j].id && rows[i].threadId != rows[j].threadId)
    && (forall i :: 0 <= i < |rows| ==> rows[i].id < nextId)
  }

  /** Whether some row belongs to the thread. */
  predicate HasThread(rows: seq<Ticket>, threadId: int) {
    exists i :: 0 <= i < |rows| && rows[i].threadId == threadId
  }

  /** `get_ticket_by_thread`: the row of the thread, if there is one. */
  function GetTicketByThread(rows: seq<Ticket>, threadId: int): (r: Option<Ticket>)
    ensures r.Some? <==> HasThread(rows, threadId)
    ensures r.Some? ==> r.value in rows && r.value.threadId == threadId
  {
    if rows == [] then None
    else if rows[0].threadId == threadId then Some(rows[0])
    else
      var r := GetTicketByThread(rows[1..], threadId);
      assert HasThread(rows[1..], threadId) ==> HasThread(rows, threadId) by {
        if HasThread(rows[1..], threadId) {
          var j :| 0 <= j < |rows[1..]| && rows[1..][j].threadId == threadId;
          assert rows[j + 1].threadId == threadId;
        }
      }
      assert HasThread(rows, threadId) ==> HasThread(rows[1..], threadId) by {
        if HasThread(rows, threadId) {
          var j :| 0 <= j < |rows| && rows[j].threadId == threadId;
          assert rows[1..][j - 1].threadId == threadId;
        }
      }
      r
  }

  /** In a table with unique thread ids, the lookup finds each row under its own thread. */
  lemma {:induction false} GetTicketByThreadFindsRow(rows: seq<Ticket>, nextId: int, i: int)
    requires IsTable(rows, nextId) && 0 <= i < |rows|
    ensures GetTicketByThread(rows, rows[i].threadId) == Some(rows[i])
  {
    if i > 0 {
      assert rows[0].threadId != rows[i].threadId;
      assert rows[1..][i - 1] == rows[i];
      TableTail(rows, nextId);
      GetTicketByThreadFindsRow(rows[1..], nextId, i - 1);
    }
  }

  lemma TableTail(rows: seq<Ticket>, nextId: int)
    requires IsTable(rows, nextId) && rows != []
    ensures IsTable(rows[1..], nextId)
  {
    var tail := rows[1..];
    forall i, j | 0 <= i < j < |tail| ensures tail[i].id < tail[j].id && tail[i].threadId != tail[j].threadId {
      assert tail[i] == rows[i + 1] && tail[j] == rows[j + 1];
    }
  }

  /** The row `create_ticket` inserts: status open, the three timestamps now, no claim and no close time. */
  function NewTicket(id: int, guildId: int, threadId: int, creatorId: int, isPrivate: bool, title: string, now: int): Ticket {
    Ticket(id, guildId, threadId, creatorId, isPrivate, Open, title, now, now, None, Some(now), None)
  }

  /** After an insert for a thread without a row, the lookup finds the inserted row. */
  lemma {:induction false} GetTicketAfterInsert(rows: seq<Ticket>, t: Ticket, threadId: int)
    requires !HasThread(rows, t.threadId)
    ensures GetTicketByThread(rows + [t], threadId) ==
      if threadId == t.threadId then Some(t) else GetTicketByThread(rows, threadId)
  {
    if rows == [] {
      assert rows + [t] == [t];
    } else {
      assert (rows + [t])[1..] == rows[1..] + [t];
      assert !HasThread(rows[1..], t.threadId);
      assert rows[0].threadId != t.threadId;
      GetTicketAfterInsert(rows[1..], t, threadId);
    }
  }

  /** The column writes of the UPDATE statements; the `now` each one carries is `int(time.time())`. */
  datatype Change =
    | NewStatus(status: Status, now: int)        // update_status
    | NewClaim(claimedBy: Option<int>, now: int) // set_claim
    | CloseAs(status: Status, now: int)          // close_ticket
    | UserMessageAt(now: int)                    // update_last_user_message
    | Privatize                                  // ticket_convert's `SET is_private=1`

  /** One row after a change: the columns its SET list names, and no other. */
  function Apply(t: Ticket, c: Change): (r: Ticket)
    ensures r.id == t.id && r.guildId == t.guildId && r.threadId == t.threadId
    ensures r.creatorId == t.creatorId && r.title == t.title && r.createdAt == t.createdAt
    ensures t.isPrivate ==> r.isPrivate
  {
    match c
    case NewStatus(s, now) => t.(status := s, updatedAt := now)
    case NewClaim(m, now) => t.(claimedBy := m, updatedAt := now)
    case CloseAs(s, now) => t.(status := s, closedAt := Some(now), updatedAt := now)
    case UserMessageAt(now) => t.(lastUserMessageAt := Some(now), updatedAt := now)
    case Privatize => t.(isPrivate := true)
  }

  /** `UPDATE tickets SET ... WHERE thread_id=?`: every row of the thread changed, the others as they were. */
  function UpdateWhere(rows: seq<Ticket>, threadId: int, c: Change): (r: seq<Ticket>)
    ensures |r| == |rows|
    ensures forall i :: 0 <= i < |rows| && rows[i].threadId != threadId ==> r[i] == rows[i]
    ensures forall i :: 0 <= i < |rows| && rows[i].threadId == threadId ==> r[i] == Apply(rows[i], c)
  {
    seq(|rows|, i requires 0 <= i < |rows| => if rows[i].threadId == threadId then Apply(rows[i], c) else rows[i])
  }

  /** An update keeps the table constraints: it never touches `id` or `thread_id`. */
  lemma UpdateKeepsTable(rows: seq<Ticket>, nextId: int, threadId: int, c: Change)
    requires IsTable(rows, nextId)
    ensures IsTable(UpdateWhere(rows, threadId, c), nextId)
  {
    var r := UpdateWhere(rows, threadId, c);
    assert forall i :: 0 <= i < |rows| ==> r[i].id == rows[i].id && r[i].threadId == rows[i].threadId;
  }

  /** An update naming a thread without a row changes nothing. */
  lemma UpdateUnknownThread(rows: seq<Ticket>, threadId: int, c: Change)
    requires !HasThread(rows, threadId)
    ensures UpdateWhere(rows, threadId, c) == rows
  {
  }

  /** After an update the thread's row reads as the changed row, and every other thread's row as before. */
  lemma {:induction false} GetTicketAfterUpdate(rows: seq<Ticket>, threadId: int, c: Change, other: int)
    ensures GetTicketByThread(UpdateWhere(rows, threadId, c), other) ==
      match GetTicketByThread(rows, other)
      case None => None
      case Some(t) => Some(if other == threadId then Apply(t, c) else t)
  {
    if rows != [] {
      assert UpdateWhere(rows, threadId, c)[1..] == UpdateWhere(rows[1..], threadId, c);
      GetTicketAfterUpdate(rows[1..], threadId, c, other);
    }
  }

  /** No update turns a private ticket public: `is_private` is only ever set to 1 after creation. */
  lemma PrivateStaysPrivate(rows: seq<Ticket>, threadId: int, c: Change, i: int)
    requires 0 <= i < |rows| && rows[i].isPrivate
    ensures UpdateWhere(rows, threadId, c)[i].isPrivate
  {
  }

  /** The rows that satisfy `p`, in table order (the `WHERE` of a `SELECT`). */
  function Where(rows: seq<Ticket>, p: Ticket -> bool): (r: seq<Ticket>)
    ensures |r| <= |rows|
    ensures forall t :: t in r <==> t in rows && p(t)
  {
    if rows == [] then []
    else (if p(rows[0]) then [rows[0]] else []) + Where(rows[1..], p)
  }

  /** The `thread_id` column of some rows. */
  function ThreadIds(rows: seq<Ticket>): (r: seq<int>)
    ensures |r| == |rows|
    ensures forall i :: 0 <= i < |rows| ==> r[i] == rows[i].threadId
  {
    seq(|rows|, i requires 0 <= i < |rows| => rows[i].threadId)
  }

  predicate OpenBy(t: Ticket, guildId: int, userId: int) {
    t.guildId == guildId && t.creatorId == userId && IsActive(t.status)
  }

  /** `list_open_tickets_by_user`: the user's open and in-progress tickets in the guild. */
  function ListOpenTicketsByUser(rows: seq<Ticket>, guildId: int, userId: int): (r: seq<Ticket>)
    ensures forall t :: t in r <==> t in rows && OpenBy(t, guildId, userId)
  {
    Where(rows, t => OpenBy(t, guildId, userId))
  }

  /**
   * The `tickets_stale` condition: guild, privacy, an open or in-progress
   * status, and a last user message strictly before the threshold (a NULL time
   * never compares).
   */
  predicate IsStale(t: Ticket, guildId: int, olderThan: int, isPrivate: bool) {
    && t.guildId == guildId && t.isPrivate == isPrivate && IsActive(t.status)
    && t.lastUserMessageAt.Some? && t.lastUserMessageAt.value < olderThan
  }

  /** `tickets_stale`: the threads of the stale rows. */
  function TicketsStale(rows: seq<Ticket>, guildId: int, olderThan: int, isPrivate: bool): (r: seq<int>)
    ensures forall tid :: tid in r <==> exists t :: t in rows && IsStale(t, guildId, olderThan, isPrivate) && t.threadId == tid
  {
    var selected := Where(rows, t => IsStale(t, guildId, olderThan, isPrivate));
    var r := ThreadIds(selected);
    assert forall tid :: tid in r ==> exists t :: t in selected && t.threadId == tid by {
      forall tid | tid in r ensures exists t :: t in selected && t.threadId == tid {
        var i :| 0 <= i < |r| && r[i] == tid;
        assert selected[i] in selected;
      }
    }
    assert forall t :: t in selected ==> t.threadId in r by {
      forall t | t in selected ensures t.threadId in r {
        var i :| 0 <= i < |selected| && selected[i] == t;
        assert r[i] == t.threadId;
      }
    }
    r
  }

  /**
   * The `archive_purge_candidates` condition: guild, a closed, solved or
   * rejected status, and a close time strictly before the threshold; a row that
   * was never closed never qualifies.
   */
  predicate IsPurgeable(t: Ticket, guildId: int, olderThan: int) {
    && t.guildId == guildId && IsFinished(t.status)
    && t.closedAt.Some? && t.closedAt.value < olderThan
  }

  /** `archive_purge_candidates`: the threads of the purgeable rows. */
  function ArchivePurgeCandidates(rows: seq<Ticket>, guildId: int, olderThan: int): (r: seq<int>)
    ensures forall tid :: tid in r <==> exists t :: t in rows && IsPurgeable(t, guildId, olderThan) && t.threadId == tid
  {
    var selected := Where(rows, t => IsPurgeable(t, guildId, olderThan));
    var r := ThreadIds(selected);
    assert forall tid :: tid in r ==> exists t :: t in selected && t.threadId == tid by {
      forall tid | tid in r ensures exists t :: t in selected && t.threadId == tid {
        var i :| 0 <= i < |r| && r[i] == tid;
        assert selected[i] in selected;
      }
    }
    assert forall t :: t in selected ==> t.threadId in r by {
      forall t | t in selected ensures t.threadId in r {
        var i :| 0 <= i < |selected| && selected[i] == t;
        assert r[i] == t.threadId;
      }
    }
    r
  }

  /** `SELECT COUNT(*) FROM tickets WHERE guild_id=?` */
  function CountGuild(rows: seq<Ticket>, guildId: int): (n: nat)
    ensures n <= |rows|
  {
    if rows == [] then 0 else (if rows[0].guildId == guildId then 1 else 0) + CountGuild(rows[1..], guildId)
  }

  /** The `COUNT(*)` of one status group of `count_by_status`. */
  function CountStatus(rows: seq<Ticket>, guildId: int, s: Status): (n: nat)
    ensures n <= CountGuild(rows, guildId)
  {
    if rows == [] then 0
    else (if rows[0].guildId == guildId && rows[0].status == s then 1 else 0) + CountStatus(rows[1..], guildId, s)
  }

  /** The five status groups partition the guild's rows. */
  lemma {:induction false} StatusCountsSum(rows: seq<Ticket>, guildId: int)
    ensures CountStatus(rows, guildId, Open) + CountStatus(rows, guildId, InProgress)
      + CountStatus(rows, guildId, Solved) + CountStatus(rows, guildId, Rejected)
      + CountStatus(rows, guildId, Closed) == CountGuild(rows, guildId)
  {
    if rows != [] {
      StatusCountsSum(rows[1..], guildId);
    }
  }

  /** The statuses that occur at all. */
  const AllStatuses: set<Status> := {Open, InProgress, Solved, Rejected, Closed}

  lemma StatusListed(s: Status)
    ensures s in AllStatuses
  {
  }

  /** `count_by_status`: one group per status that occurs in the guild, with its row count. */
  function CountByStatus(rows: seq<Ticket>, guildId: int): (r: map<Status, nat>)
    ensures forall s :: s in r <==> CountStatus(rows, guildId, s) > 0
    ensures forall s :: s in r ==> r[s] == CountStatus(rows, guildId, s)
  {
    assert forall s :: s in AllStatuses by {
      forall s: Status {
        StatusListed(s);
      }
    }
    map s | s in AllStatuses && CountStatus(rows, guildId, s) > 0 :: CountStatus(rows, guildId, s)
  }

  /** The stats command's `SELECT COUNT(*) ... WHERE guild_id=? AND created_at > ?` */
  function CountCreatedAfter(rows: seq<Ticket>, guildId: int, since: int): (n: nat)
    ensures n <= CountGuild(rows, guildId)
  {
    if rows == [] then 0
    else (if rows[0].guildId == guildId && rows[0].createdAt > since then 1 else 0) + CountCreatedAfter(rows[1..], guildId, since)
  }

  /** The guild's rows, in table order. */
  function GuildRows(rows: seq<Ticket>, guildId: int): (r: seq<Ticket>)
    ensures forall t :: t in r <==> t in rows && t.guildId == guildId
  {
    Where(rows, (t: Ticket) => t.guildId == guildId)
  }

  /** How many titles `duplicate_check` compares against. */
  const RecentLimit := 25

  /**
   * `SELECT title FROM tickets WHERE guild_id=? ORDER BY id DESC LIMIT 25`:
   * rows are kept in ascending id order, so this is the guild's last 25 rows
   * taken from the end.
   */
  function RecentTitles(rows: seq<Ticket>, guildId: int): (r: seq<string>)
    ensures var g := GuildRows(rows, guildId);
      && |r| == (if |g| < RecentLimit then |g| else RecentLimit)
      && forall k :: 0 <= k < |r| ==> r[k] == g[|g| - 1 - k].title
  {
    NewestTitles(GuildRows(rows, guildId), RecentLimit)
  }

  /** The titles of the last `n` rows of `g`, newest first. */
  function NewestTitles(g: seq<Ticket>, n: nat): (r: seq<string>)
    ensures |r| == if |g| < n then |g| else n
    ensures forall k :: 0 <= k < |r| ==> r[k] == g[|g| - 1 - k].title
  {
    if n == 0 || g == [] then []
    else
      [g[|g| - 1].title] + NewestTitles(g[..|g| - 1], n - 1)
  }

  /** Every title `duplicate_check` compares against is the title of one of the guild's rows. */
  lemma RecentTitleOfGuild(rows: seq<Ticket>, guildId: int, k: int)
    requires 0 <= k < |RecentTitles(rows, guildId)|
    ensures exists t :: t in rows && t.guildId == guildId && t.title == RecentTitles(rows, guildId)[k]
  {
    var g := GuildRows(rows, guildId);
    var t := g[|g| - 1 - k];
    assert t in g;
  }

  /** The rows of the guild newest first, as the query orders them: ascending ids become descending. */
  lemma RecentTitlesNewestFirst(rows: seq<Ticket>, nextId: int, guildId: int, j: int, k: int)
    requires IsTable(rows, nextId)
    requires 0 <= j < k < |GuildRows(rows, guildId)|
    ensures GuildRows(rows, guildId)[j].id < GuildRows(rows, guildId)[k].id
  {
    WhereKeepsOrder(rows, (t: Ticket) => t.guildId == guildId, nextId);
  }

  /** Ids strictly ascending in row order. */
  predicate Ascending(rows: seq<Ticket>) {
    forall j, k :: 0 <= j < k < |rows| ==> rows[j].id < rows[k].id
  }

  /** Selecting rows of a table keeps them in ascending id order. */
  lemma WhereKeepsOrder(rows: seq<Ticket>, p: Ticket -> bool, nextId: int)
    requires IsTable(rows, nextId)
    ensures Ascending(Where(rows, p))
  {
    WhereAscending(rows, p);
  }

  lemma {:induction false} WhereAscending(rows: seq<Ticket>, p: Ticket -> bool)
    requires Ascending(rows)
    ensures Ascending(Where(rows, p))
  {
    if rows != [] {
      AscendingTail(rows);
      WhereAscending(rows[1..], p);
      if p(rows[0]) {
        AscendingCons(rows[0], Where(rows[1..], p));
      }
    }
  }

  lemma AscendingTail(rows: seq<Ticket>)
    requires Ascending(rows) && rows != []
    ensures Ascending(rows[1..])
    ensures forall t :: t in rows[1..] ==> rows[0].id < t.id
  {
    var tail := rows[1..];
    forall j, k | 0 <= j < k < |tail| ensures tail[j].id < tail[k].id {
      assert tail[j] == rows[j + 1] && tail[k] == rows[k + 1];
    }
    forall t | t in tail ensures rows[0].id < t.id {
      var i :| 0 <= i < |tail| && tail[i] == t;
      assert rows[i + 1] == t;
    }
  }

  lemma AscendingCons(x: Ticket, rest: seq<Ticket>)
    requires Ascending(rest)
    requires forall t :: t in rest ==> x.id < t.id
    ensures Ascending([x] + rest)
  {
    var r := [x] + rest;
    forall j, k | 0 <= j < k < |r| ensures r[j].id < r[k].id {
      assert r[k] == rest[k - 1] && r[k] in rest;
      if j > 0 {
        assert r[j] == rest[j - 1];
      }
    }
  }

  /** `is_blacklisted`: whether the `(guild_id, user_id)` key has an entry. */
  predicate IsBlacklisted(blacklist: map<(int, int), string>, guildId: int, userId: int) {
    (guildId, userId) in blacklist
  }

  /**
   * The database: the rows of `tickets` in ascending id order, the next
   * AUTOINCREMENT id, and `blacklist` keyed by its primary key `(guild_id,
   * user_id)` with the reason.
   */
  class Database {
    var tickets: seq<Ticket>
    var nextId: int
    var blacklist: map<(int, int), string>

    ghost predicate Valid()
      reads this
    {
      IsTable(tickets, nextId)
    }

    /** A fresh database after `init`: both tables empty. */
    constructor ()
      ensures Valid() && tickets == [] && blacklist == map[]
    {
      tickets := [];
      nextId := 1;
      blacklist := map[];
    }

    /**
     * `create_ticket`: the INSERT succeeds, and appends the new open row, exactly
     * when the thread has no row yet; otherwise the UNIQUE constraint on
     * `thread_id` refuses it and nothing changes.
     */
    method CreateTicket(guildId: int, threadId: int, creatorId: int, isPrivate: bool, title: string, now: int)
      returns (inserted: bool)
      requires Valid()
      modifies this
      ensures Valid()
      ensures inserted <==> !HasThread(old(tickets), threadId)
      ensures inserted ==> tickets == old(tickets) + [NewTicket(old(nextId), guildId, threadId, creatorId, isPrivate, title, now)]
      ensures !inserted ==> tickets == old(tickets) && nextId == old(nextId)
      ensures blacklist == old(blacklist)
    {
      var existing := GetTicketByThread(tickets, threadId);
      if existing.Some? {
        return false;
      }
      var t := NewTicket(nextId, guildId, threadId, creatorId, isPrivate, title, now);
      tickets := tickets + [t];
      nextId := nextId + 1;
      inserted := true;
    }

    /** Runs one UPDATE on the thread's rows. */
    method Update(threadId: int, c: Change)
      requires Valid()
      modifies this
      ensures Valid()
      ensures tickets == UpdateWhere(old(tickets), threadId, c)
      ensures nextId == old(nextId) && blacklist == old(blacklist)
    {
      UpdateKeepsTable(tickets, nextId, threadId, c);
      tickets := UpdateWhere(tickets, threadId, c);
    }

    /** `update_status`: status and `updated_at` only; `closed_at` is left as it was. */
    method UpdateStatus(threadId: int, status: Status, now: int)
      requires Valid()
      modifies this
      ensures Valid()
      ensures tickets == UpdateWhere(old(tickets), threadId, NewStatus(status, now))
      ensures nextId == old(nextId) && blacklist == old(blacklist)
    {
      Update(threadId, NewStatus(status, now));
    }

    /** `set_claim`: `claimed_by` and `updated_at` only. */
    method SetClaim(threadId: int, memberId: Option<int>, now: int)
      requires Valid()
      modifies this
      ensures Valid()
      ensures tickets == UpdateWhere(old(tickets), threadId, NewClaim(memberId, now))
      ensures nextId == old(nextId) && blacklist == old(blacklist)
    {
      Update(threadId, NewClaim(memberId, now));
    }

    /** `close_ticket`: the status, with `closed_at` and `updated_at` both now. */
    method CloseTicket(threadId: int, status: Status, now: int)
      requires Valid()
      modifies this
      ensures Valid()
      ensures tickets == UpdateWhere(old(tickets), threadId, CloseAs(status, now))
      ensures nextId == old(nextId) && blacklist == old(blacklist)
    {
      Update(threadId, CloseAs(status, now));
    }

    /** `update_last_user_message`: `last_user_message_at` and `updated_at` only. */
    method UpdateLastUserMessage(threadId: int, now: int)
      requires Valid()
      modifies this
      ensures Valid()
      ensures tickets == UpdateWhere(old(tickets), threadId, UserMessageAt(now))
      ensures nextId == old(nextId) && blacklist == old(blacklist)
    {
      Update(threadId, UserMessageAt(now));
    }

    /** `ticket_convert`'s `UPDATE tickets SET is_private=1 WHERE thread_id=?`; `updated_at` is not touched. */
    method MarkPrivate(threadId: int)
      requires Valid()
      modifies this
      ensures Valid()
      ensures tickets == UpdateWhere(old(tickets), threadId, Privatize)
      ensures nextId == old(nextId) && blacklist == old(blacklist)
    {
      Update(threadId, Privatize);
    }

    /** `add_blacklist`: INSERT OR REPLACE, so the key has exactly one entry, with the new reason. */
    method AddBlacklist(guildId: int, userId: int, reason: string)
      modifies this
      ensures blacklist == old(blacklist)[(guildId, userId) := reason]
      ensures IsBlacklisted(blacklist, guildId, userId)
      ensures tickets == old(tickets) && nextId == old(nextId)
    {
      blacklist := blacklist[(guildId, userId) := reason];
    }

    /** `blacklist_remove`'s DELETE: exactly that key's entry goes. */
    method RemoveBlacklist(guildId: int, userId: int)
      modifies this
      ensures blacklist == old(blacklist) - {(guildId, userId)}
      ensures !IsBlacklisted(blacklist, guildId, userId)
      ensures tickets == old(tickets) && nextId == old(nextId)
    {
      blacklist := blacklist - {(guildId, userId)};
    }
  }
}
