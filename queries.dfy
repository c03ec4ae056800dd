/** The store's read paths, as functions of snapshots of its maps: ticket filtering,
    per-ticket and per-user listings, enrichment with related records, and the stats. */
module Queries {
  import opened Domain
  import opened Sequences
  import opened Tables

  /** A ticket meets every criterion the filter supplies. Status and priority are
      membership tests applied only to a non-empty list (a ticket without a status or
      priority passes no such test); category, assignee and creator are equality tests
      applied only to a truthy value. */
  predicate Matches(f: TicketFilters, t: Ticket) {
    && (|f.status| > 0 ==> IncludedIn(t.status, f.status))
    && (|f.priority| > 0 ==> IncludedIn(t.priority, f.priority))
    && (Truthy(f.categoryId) ==> t.categoryId == f.categoryId)
    && (Truthy(f.assignedToId) ==> t.assignedToId == f.assignedToId)
    && (Truthy(f.createdById) ==> Some(t.createdById) == f.createdById)
  }

  function When<T>(apply: bool, p: T -> bool, s: seq<T>): seq<T> {
    if apply then Filter(p, s) else s
  }

  /** Each criterion of `getTickets`, to be applied only when present. */
  function StatusIn(f: TicketFilters): Ticket -> bool { (t: Ticket) => IncludedIn(t.status, f.status) }
  function PriorityIn(f: TicketFilters): Ticket -> bool { (t: Ticket) => IncludedIn(t.priority, f.priority) }
  function CategoryIs(f: TicketFilters): Ticket -> bool { (t: Ticket) => t.categoryId == f.categoryId }
  function AssigneeIs(f: TicketFilters): Ticket -> bool { (t: Ticket) => t.assignedToId == f.assignedToId }
  function CreatorIs(f: TicketFilters): Ticket -> bool { (t: Ticket) => Some(t.createdById) == f.createdById }

  /** `getTickets(filters)`: five filter passes, each applied only when its criterion is
      present. */
  function FilterTickets(ts: seq<Ticket>, f: TicketFilters): (r: seq<Ticket>)
    ensures |r| <= |ts|
    ensures forall i | 0 <= i < |r| :: r[i] in ts && Matches(f, r[i])
    ensures f == NoFilters ==> r == ts
  {
    var byStatus := When(|f.status| > 0, StatusIn(f), ts);
    var byPriority := When(|f.priority| > 0, PriorityIn(f), byStatus);
    var byCategory := When(Truthy(f.categoryId), CategoryIs(f), byPriority);
    var byAssignee := When(Truthy(f.assignedToId), AssigneeIs(f), byCategory);
    When(Truthy(f.createdById), CreatorIs(f), byAssignee)
  }

  /** `Matches` as a filter criterion. */
  function MatchesAll(f: TicketFilters): Ticket -> bool { (t: Ticket) => Matches(f, t) }

  /** What the first two, three and four passes of `getTickets` require. */
  function StatusAndPriority(f: TicketFilters): Ticket -> bool {
    (t: Ticket) => (|f.status| > 0 ==> IncludedIn(t.status, f.status)) && (|f.priority| > 0 ==> IncludedIn(t.priority, f.priority))
  }
  function UpToCategory(f: TicketFilters): Ticket -> bool {
    (t: Ticket) => StatusAndPriority(f)(t) && (Truthy(f.categoryId) ==> t.categoryId == f.categoryId)
  }
  function UpToAssignee(f: TicketFilters): Ticket -> bool {
    (t: Ticket) => UpToCategory(f)(t) && (Truthy(f.assignedToId) ==> t.assignedToId == f.assignedToId)
  }

  /** The status and priority passes together are one filter by both criteria. */
  lemma {:induction false} FirstTwoPasses(ts: seq<Ticket>, f: TicketFilters)
    ensures When(|f.priority| > 0, PriorityIn(f), When(|f.status| > 0, StatusIn(f), ts))
         == Filter(StatusAndPriority(f), ts)
  {
    var all := (t: Ticket) => true;
    var m1 := (t: Ticket) => |f.status| > 0 ==> StatusIn(f)(t);
    FilterKeepsAll(all, ts);
    WhenFilter(|f.status| > 0, all, StatusIn(f), m1, ts);
    WhenFilter(|f.priority| > 0, m1, PriorityIn(f), StatusAndPriority(f), ts);
  }

  /** The five passes of `getTickets` select exactly the tickets that meet every
      supplied criterion, in their original order. */
  lemma {:induction false} FilterTicketsMatches(ts: seq<Ticket>, f: TicketFilters)
    ensures FilterTickets(ts, f) == Filter(MatchesAll(f), ts)
  {
    var byPriority := When(|f.priority| > 0, PriorityIn(f), When(|f.status| > 0, StatusIn(f), ts));
    FirstTwoPasses(ts, f);
    var byCategory := When(Truthy(f.categoryId), CategoryIs(f), byPriority);
    WhenFilter(Truthy(f.categoryId), StatusAndPriority(f), CategoryIs(f), UpToCategory(f), ts);
    assert byCategory == Filter(UpToCategory(f), ts);
    var byAssignee := When(Truthy(f.assignedToId), AssigneeIs(f), byCategory);
    WhenFilter(Truthy(f.assignedToId), UpToCategory(f), AssigneeIs(f), UpToAssignee(f), ts);
    assert byAssignee == Filter(UpToAssignee(f), ts);
    WhenFilter(Truthy(f.createdById), UpToAssignee(f), CreatorIs(f), MatchesAll(f), ts);
    assert FilterTickets(ts, f) == When(Truthy(f.createdById), CreatorIs(f), byAssignee);
  }

  /** One conditional filter pass over an already filtered sequence is one filter by
      the conjunction of the two criteria. */
  lemma {:induction false} WhenFilter<T>(apply: bool, acc: T -> bool, p: T -> bool, next: T -> bool, s: seq<T>)
    requires forall x :: next(x) == (acc(x) && (apply ==> p(x)))
    ensures When(apply, p, Filter(acc, s)) == Filter(next, s)
  {
    if apply {
      FilterFilter(acc, p, next, s);
    } else {
      forall i | 0 <= i < |s| ensures acc(s[i]) == next(s[i]) { }
      FilterCongruent(acc, next, s);
    }
  }

  /** The server filter keeps the input order and drops only non-matching tickets;
      with no criteria it returns every ticket. */
  lemma {:induction false} FilterTicketsProperties(ts: seq<Ticket>, f: TicketFilters)
    ensures IsSubsequence(FilterTickets(ts, f), ts)
    ensures forall i | 0 <= i < |FilterTickets(ts, f)| :: Matches(f, FilterTickets(ts, f)[i])
    ensures forall i | 0 <= i < |ts| && Matches(f, ts[i]) :: ts[i] in FilterTickets(ts, f)
    ensures f == NoFilters ==> FilterTickets(ts, f) == ts
  {
    FilterTicketsMatches(ts, f);
    FilterIsSubsequence(MatchesAll(f), ts);
    if f == NoFilters {
      FilterKeepsAll(MatchesAll(f), ts);
    }
  }

  /** A status filter keeps exactly the tickets whose status is listed. */
  lemma {:induction false} StatusFilterScenario(ts: seq<Ticket>, statuses: seq<Status>)
    requires |statuses| > 0
    ensures var r := FilterTickets(ts, NoFilters.(status := statuses));
      && (forall i | 0 <= i < |r| :: IncludedIn(r[i].status, statuses))
      && (forall i | 0 <= i < |ts| && IncludedIn(ts[i].status, statuses) :: ts[i] in r)
  {
    FilterTicketsProperties(ts, NoFilters.(status := statuses));
  }

  /** A ticket enriched with its creator, assignee and category, each looked up at read
      time and absent when the id is falsy or names no record. */
  datatype Details = Details(ticket: Ticket, createdBy: Option<User>, assignedTo: Option<User>,
                             category: Option<Category>)

  /** The related records of a ticket; a dangling reference is read as absent. */
  function WithDetails(users: Table<User>, cats: Table<Category>, t: Ticket): (d: Details)
    ensures d.ticket == t
    ensures d.createdBy == users.Get(t.createdById)
    ensures d.assignedTo.Some? <==> Truthy(t.assignedToId) && t.assignedToId.value in users.entries
    ensures d.assignedTo.Some? ==> d.assignedTo.value == users.entries[t.assignedToId.value]
    ensures d.category.Some? <==> Truthy(t.categoryId) && t.categoryId.value in cats.entries
    ensures d.category.Some? ==> d.category.value == cats.entries[t.categoryId.value]
  {
    Details(t, users.Get(t.createdById),
            if Truthy(t.assignedToId) then users.Get(t.assignedToId.value) else None,
            if Truthy(t.categoryId) then cats.Get(t.categoryId.value) else None)
  }

  function AllWithDetails(users: Table<User>, cats: Table<Category>, ts: seq<Ticket>): (ds: seq<Details>)
    ensures |ds| == |ts|
    ensures forall i | 0 <= i < |ts| :: ds[i] == WithDetails(users, cats, ts[i])
  {
    seq(|ts|, i requires 0 <= i < |ts| => WithDetails(users, cats, ts[i]))
  }

  /** The comment belongs to the ticket. */
  function OnTicket(ticketId: int): Comment -> bool {
    (c: Comment) => c.ticketId == ticketId
  }

  /** The notification is the user's, and unread when `unreadOnly`. */
  function NoticeFor(userId: int, unreadOnly: bool): Notification -> bool {
    (n: Notification) => n.userId == userId && (unreadOnly ==> !n.read)
  }

  /** The sort keys: `a.createdAt - b.createdAt` for comments, and its reverse for
      notifications. */
  function CommentTime(c: Comment): int { c.createdAt }
  function NewerFirst(n: Notification): int { -n.createdAt }

  /** `getCommentsByTicket(ticketId)`: the ticket's comments, oldest first. The result is
      a permutation of the ticket's comments, and the sort being stable, comments listed
      in ascending id order come out in that order when their times are equal. */
  function CommentsOf(cs: seq<Comment>, ticketId: int): (r: seq<Comment>)
    ensures multiset(r) == multiset(Filter(OnTicket(ticketId), cs))
    ensures forall i | 0 <= i < |r| :: r[i] in cs && OnTicket(ticketId)(r[i])
    ensures forall i | 0 <= i < |cs| && OnTicket(ticketId)(cs[i]) :: cs[i] in r
    ensures forall i, j | 0 <= i < j < |r| :: r[i].createdAt <= r[j].createdAt
    ensures IncreasingBy(CommentId, cs) ==> TiesBy(CommentTime, CommentId, r)
  {
    SortedSelection(CommentTime, CommentId, OnTicket(ticketId), cs);
    SortBy(CommentTime, Filter(OnTicket(ticketId), cs))
  }

  /** `getNotificationsByUser(userId)` (every notice) and `getUnreadNotificationsByUser`
      (`unreadOnly`): the user's notifications, newest first; a permutation of them, with
      notices of equal time in their listed order. */
  function NotificationsOf(ns: seq<Notification>, userId: int, unreadOnly: bool): (r: seq<Notification>)
    ensures multiset(r) == multiset(Filter(NoticeFor(userId, unreadOnly), ns))
    ensures forall i | 0 <= i < |r| :: r[i] in ns && NoticeFor(userId, unreadOnly)(r[i])
    ensures forall i | 0 <= i < |ns| && NoticeFor(userId, unreadOnly)(ns[i]) :: ns[i] in r
    ensures forall i, j | 0 <= i < j < |r| :: r[i].createdAt >= r[j].createdAt
    ensures IncreasingBy(NotificationId, ns) ==> TiesBy(NewerFirst, NotificationId, r)
  {
    SortedSelection(NewerFirst, NotificationId, NoticeFor(userId, unreadOnly), ns);
    SortBy(NewerFirst, Filter(NoticeFor(userId, unreadOnly), ns))
  }

  /** `getUserByUsername(name)`: the first user, in insertion order, with that name. */
  function FindByUsername(us: seq<User>, name: string): (r: Option<User>)
    ensures r.None? <==> forall i | 0 <= i < |us| :: us[i].username != name
    ensures r.Some? ==> exists i | 0 <= i < |us| ::
      us[i] == r.value && r.value.username == name && forall j | 0 <= j < i :: us[j].username != name
  {
    if us == [] then None
    else if us[0].username == name then Some(us[0])
    else
      var r := FindByUsername(us[1..], name);
      assert forall i | 1 <= i < |us| :: us[i] == us[1..][i - 1];
      if r.Some? then
        assert exists i | 0 <= i < |us| ::
          us[i] == r.value && r.value.username == name && forall j | 0 <= j < i :: us[j].username != name by {
          var k :| 0 <= k < |us[1..]| && us[1..][k] == r.value && r.value.username == name
            && forall j | 0 <= j < k :: us[1..][j].username != name;
          assert us[k + 1] == r.value;
          assert forall j | 1 <= j < k + 1 :: us[j] == us[1..][j - 1];
        }
        r
      else r
  }

  /** `getTicketStats()`. `resolvedTickets` is the number of tickets resolved since the
      start of the day; `avgResponseTime` is a fixed placeholder. */
  datatype Stats = Stats(
    total: nat, openTickets: nat, inProgressTickets: nat, resolvedTickets: nat, closedTickets: nat,
    highPriorityCount: nat, mediumPriorityCount: nat, lowPriorityCount: nat, avgResponseTime: string)

  /** The ticket has status `s` (`None`: no status). */
  function StatusIs(s: Option<Status>): Ticket -> bool {
    (t: Ticket) => t.status == s
  }

  /** The ticket has priority `p` (`None`: no priority). */
  function PriorityIs(p: Option<Priority>): Ticket -> bool {
    (t: Ticket) => t.priority == p
  }

  /** The ticket is resolved and was last updated at or after `startOfToday`. */
  function ResolvedSince(startOfToday: int): Ticket -> bool {
    (t: Ticket) => t.status == Some(Resolved) && t.updatedAt >= startOfToday
  }

  function CountStatus(ts: seq<Ticket>, s: Option<Status>): nat {
    Count(StatusIs(s), ts)
  }

  function CountPriority(ts: seq<Ticket>, p: Option<Priority>): nat {
    Count(PriorityIs(p), ts)
  }

  /** Every ticket has one of the four statuses or none. */
  lemma {:induction false} EveryStatusBucket()
    ensures forall t: Ticket ::
              (StatusIs(Some(Open))(t) || StatusIs(Some(InProgress))(t) || StatusIs(Some(Resolved))(t)
               || StatusIs(Some(Closed))(t) || StatusIs(None)(t))
  {
    forall t: Ticket ensures t.status.None? || t.status.value in {Open, InProgress, Resolved, Closed} {
      if t.status.Some? {
        var s := t.status.value;
        assert s.Open? || s.InProgress? || s.Resolved? || s.Closed?;
      }
    }
  }

  /** Every ticket has one of the three priorities or none. */
  lemma {:induction false} EveryPriorityBucket()
    ensures forall t: Ticket ::
              (PriorityIs(Some(High))(t) || PriorityIs(Some(Medium))(t) || PriorityIs(Some(Low))(t)
               || PriorityIs(None)(t))
  {
    forall t: Ticket ensures t.priority.None? || t.priority.value in {High, Medium, Low} {
      if t.priority.Some? {
        var p := t.priority.value;
        assert p.High? || p.Medium? || p.Low?;
      }
    }
  }

  /** The status counts, with the all-time resolved count (which the report does not
      carry) and the tickets without a status, add up to the total; so do the priority
      counts with the tickets without a priority. The reported resolved count, being
      today's, is at most the all-time one. */
  function TicketStats(ts: seq<Ticket>, startOfToday: int): (r: Stats)
    ensures r.total == |ts|
    ensures r.openTickets + r.inProgressTickets + CountStatus(ts, Some(Resolved)) + r.closedTickets
            + CountStatus(ts, None) == r.total
    ensures r.highPriorityCount + r.mediumPriorityCount + r.lowPriorityCount + CountPriority(ts, None) == r.total
    ensures r.resolvedTickets <= CountStatus(ts, Some(Resolved))
    ensures r.avgResponseTime == "3.2h"
  {
    EveryStatusBucket();
    EveryPriorityBucket();
    CountPartition5(StatusIs(Some(Open)), StatusIs(Some(InProgress)), StatusIs(Some(Resolved)),
                    StatusIs(Some(Closed)), StatusIs(None), ts);
    CountPartition4(PriorityIs(Some(High)), PriorityIs(Some(Medium)), PriorityIs(Some(Low)), PriorityIs(None), ts);
    CountMonotone(ResolvedSince(startOfToday), StatusIs(Some(Resolved)), ts);
    Stats(|ts|, CountStatus(ts, Some(Open)), CountStatus(ts, Some(InProgress)),
          Count(ResolvedSince(startOfToday), ts), CountStatus(ts, Some(Closed)),
          CountPriority(ts, Some(High)), CountPriority(ts, Some(Medium)), CountPriority(ts, Some(Low)), "3.2h")
  }
}
