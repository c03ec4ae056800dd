/** The ticket list of the web client's Tickets page: the fetched tickets narrowed by
    the search box and the filter panel, then ordered by the chosen sort option. The
    list is computed afresh from the fetched array, which it never changes. */
module TicketsPage {
  import opened Domain
  import opened Sequences

  function LowerChar(c: char): char {
    if 'A' <= c <= 'Z' then (c as int + 32) as char else c
  }

  /** `toLowerCase`, for the ASCII letters: the result has no upper-case letter, and
      every other character is kept. */
  function Lower(s: string): (r: string)
    ensures |r| == |s|
    ensures forall i | 0 <= i < |r| :: !('A' <= r[i] <= 'Z')
    ensures forall i | 0 <= i < |s| && !('A' <= s[i] <= 'Z') :: r[i] == s[i]
  {
    seq(|s|, i requires 0 <= i < |s| => LowerChar(s[i]))
  }

  /** Lower-casing twice is lower-casing once. */
  lemma {:induction false} LowerIdempotent(s: string)
    ensures Lower(Lower(s)) == Lower(s)
  {
    var once := Lower(s);
    assert forall i | 0 <= i < |once| :: Lower(once)[i] == once[i];
  }

  /** `q` occurs in `s` starting at position `i`. */
  predicate OccursAt(s: string, q: string, i: int) {
    0 <= i && i + |q| <= |s| && s[i..i + |q|] == q
  }

  /** `s.includes(q)`, scanning `s` from the left. */
  predicate Includes(s: string, q: string)
    decreases |s|
  {
    |q| <= |s| && (s[..|q|] == q || (s != [] && Includes(s[1..], q)))
  }

  /** `Includes` holds exactly when `q` occurs somewhere in `s`; the empty string occurs
      in every string. */
  lemma {:induction false} IncludesIffOccurs(s: string, q: string)
    ensures Includes(s, q) <==> exists i :: OccursAt(s, q, i)
    ensures Includes(s, [])
    decreases |s|
  {
    assert OccursAt(s, q, 0) <==> |q| <= |s| && s[..|q|] == q;
    if s != [] {
      IncludesIffOccurs(s[1..], q);
      if Includes(s[1..], q) {
        var i :| OccursAt(s[1..], q, i);
        assert s[1..][i..i + |q|] == s[i + 1..i + 1 + |q|];
        assert OccursAt(s, q, i + 1);
      }
      if exists i :: OccursAt(s, q, i) {
        var i :| OccursAt(s, q, i);
        if i > 0 {
          assert s[1..][i - 1..i - 1 + |q|] == s[i..i + |q|];
          assert OccursAt(s[1..], q, i - 1);
        }
      }
    } else {
      if exists i :: OccursAt(s, q, i) {
        var i :| OccursAt(s, q, i);
        assert i == 0;
      }
    }
    assert s[..0] == [];
  }

  /** The search step: a non-empty query must occur, ignoring case, in the subject or in
      the description; the empty query lets every ticket through. */
  predicate SearchHit(query: string, t: Ticket) {
    query == "" || Includes(Lower(t.subject), Lower(query)) || Includes(Lower(t.description), Lower(query))
  }

  /** The `filteredTickets` predicate: search, then status and priority by membership
      when the list is non-empty (a ticket without a status or priority is not a member), then category and assignee by equality when the filter
      value is truthy. The creator filter is not applied here. */
  predicate Passes(query: string, f: TicketFilters, t: Ticket) {
    && SearchHit(query, t)
    && (|f.status| > 0 ==> IncludedIn(t.status, f.status))
    && (|f.priority| > 0 ==> IncludedIn(t.priority, f.priority))
    && (Truthy(f.categoryId) ==> t.categoryId == f.categoryId)
    && (Truthy(f.assignedToId) ==> t.assignedToId == f.assignedToId)
  }

  function Keep(query: string, f: TicketFilters): Ticket -> bool {
    (t: Ticket) => Passes(query, f, t)
  }

  /** `filteredTickets`: nothing while the tickets have not arrived. */
  function FilteredTickets(tickets: Option<seq<Ticket>>, query: string, f: TicketFilters): (r: seq<Ticket>)
    ensures tickets.None? ==> r == []
    ensures tickets.Some? ==> |r| <= |tickets.value|
    ensures forall i | 0 <= i < |r| :: tickets.Some? && r[i] in tickets.value && Passes(query, f, r[i])
    ensures tickets.Some? ==>
      forall i | 0 <= i < |tickets.value| && Passes(query, f, tickets.value[i]) :: tickets.value[i] in r
  {
    if tickets.None? then [] else Filter(Keep(query, f), tickets.value)
  }

  /** The filtered list keeps the fetched order, holds only tickets that pass, and holds
      every fetched ticket that passes. */
  lemma {:induction false} FilteredTicketsProperties(tickets: Option<seq<Ticket>>, query: string, f: TicketFilters)
    ensures var r := FilteredTickets(tickets, query, f);
      && (tickets.None? ==> r == [])
      && (tickets.Some? ==> IsSubsequence(r, tickets.value))
      && (tickets.Some? ==> forall t :: t in r <==> t in tickets.value && Passes(query, f, t))
  {
    if tickets.Some? {
      FilterIsSubsequence(Keep(query, f), tickets.value);
    }
  }

  /** No search text, and no status, priority, category or assignee filter. */
  predicate Unfiltered(query: string, f: TicketFilters) {
    query == "" && f.status == [] && f.priority == [] && !Truthy(f.categoryId) && !Truthy(f.assignedToId)
  }

  /** With nothing to filter by, the list is the fetched list, in the same order;
      whatever creator the filter names. */
  lemma {:induction false} UnfilteredKeepsAll(ts: seq<Ticket>, query: string, f: TicketFilters)
    requires Unfiltered(query, f)
    ensures FilteredTickets(Some(ts), query, f) == ts
  {
    FilterKeepsAll(Keep(query, f), ts);
  }

  /** A non-empty status (or priority) filter keeps exactly the tickets whose status
      (or priority) it lists, when it is the only criterion. */
  lemma {:induction false} StatusPriorityScenario(ts: seq<Ticket>, statuses: seq<Status>, priorities: seq<Priority>)
    requires |statuses| > 0 && |priorities| > 0
    ensures var byStatus := FilteredTickets(Some(ts), "", NoFilters.(status := statuses));
      forall t :: t in byStatus <==> t in ts && IncludedIn(t.status, statuses)
    ensures var byPriority := FilteredTickets(Some(ts), "", NoFilters.(priority := priorities));
      forall t :: t in byPriority <==> t in ts && IncludedIn(t.priority, priorities)
  {
    FilteredTicketsProperties(Some(ts), "", NoFilters.(status := statuses));
    FilteredTicketsProperties(Some(ts), "", NoFilters.(priority := priorities));
  }

  /** The search ignores case: a query and its lower-cased form find the same tickets. */
  lemma {:induction false} SearchIgnoresCase(query: string, f: TicketFilters, t: Ticket)
    ensures Passes(Lower(query), f, t) == Passes(query, f, t)
  {
    LowerIdempotent(query);
    assert |Lower(query)| == |query|;
  }

  /** A ticket passes the search exactly when the lower-cased query occurs in its
      lower-cased subject or description. */
  lemma {:induction false} SearchHitIffOccurs(query: string, t: Ticket)
    requires query != ""
    ensures SearchHit(query, t) <==>
      (exists i :: OccursAt(Lower(t.subject), Lower(query), i))
      || (exists i :: OccursAt(Lower(t.description), Lower(query), i))
  {
    IncludesIffOccurs(Lower(t.subject), Lower(query));
    IncludesIffOccurs(Lower(t.description), Lower(query));
  }

  /** The priority map of the sort options; a ticket without a priority ranks below
      every priority (the page's comparator yields `NaN` there). */
  function Rank(p: Option<Priority>): int {
    match p
    case Some(High) => 3
    case Some(Medium) => 2
    case Some(Low) => 1
    case None => 0
  }

  function CreatedAt(t: Ticket): int { t.createdAt }
  function NewestFirst(t: Ticket): int { -t.createdAt }
  function RankUp(t: Ticket): int { Rank(t.priority) }
  function RankDown(t: Ticket): int { -Rank(t.priority) }

  /** The key each comparator orders by, ascending: `a - b` on the creation time for
      "oldest" and on the rank for "priority-low"; `b - a`, the negated key, on the rank
      for "priority-high" and on the creation time for "newest" and any other option. */
  function SortKey(sortBy: string): Ticket -> int {
    if sortBy == "oldest" then CreatedAt
    else if sortBy == "priority-high" then RankDown
    else if sortBy == "priority-low" then RankUp
    else NewestFirst
  }

  /** `sortedTickets`: a sorted copy of the filtered list. */
  function SortedTickets(sortBy: string, ts: seq<Ticket>): (r: seq<Ticket>)
    ensures multiset(r) == multiset(ts)
    ensures SortedBy(SortKey(sortBy), r)
  {
    SortBy(SortKey(sortBy), ts)
  }

  /** The sorted list is a permutation of its input, ordered as its option says. */
  lemma {:induction false} SortOrders(sortBy: string, ts: seq<Ticket>)
    ensures var r := SortedTickets(sortBy, ts);
      && multiset(r) == multiset(ts)
      && (sortBy == "oldest" ==> forall i, j | 0 <= i < j < |r| :: r[i].createdAt <= r[j].createdAt)
      && (sortBy == "priority-high" ==> forall i, j | 0 <= i < j < |r| :: Rank(r[i].priority) >= Rank(r[j].priority))
      && (sortBy == "priority-low" ==> forall i, j | 0 <= i < j < |r| :: Rank(r[i].priority) <= Rank(r[j].priority))
      && (sortBy !in {"oldest", "priority-high", "priority-low"} ==>
            forall i, j | 0 <= i < j < |r| :: r[i].createdAt >= r[j].createdAt)
  {
    var r := SortedTickets(sortBy, ts);
    var key := SortKey(sortBy);
    assert SortedBy(key, r);
    forall i, j | 0 <= i < j < |r| ensures key(r[i]) <= key(r[j]) { }
  }

  /** The sort is stable: tickets the chosen order ranks equal stay in the order they
      were fetched in. */
  lemma {:induction false} SortKeepsTies(sortBy: string, ts: seq<Ticket>, k: int)
    ensures Filter(KeyIs(SortKey(sortBy), k), SortedTickets(sortBy, ts)) == Filter(KeyIs(SortKey(sortBy), k), ts)
  {
    SortByStable(SortKey(sortBy), ts, k);
  }

  /** The rows the page shows. */
  function ShownTickets(tickets: Option<seq<Ticket>>, query: string, f: TicketFilters, sortBy: string): seq<Ticket> {
    SortedTickets(sortBy, FilteredTickets(tickets, query, f))
  }

  /** The page shows each fetched ticket that passes the filters as often as it was
      fetched, and nothing else; with nothing to filter by it shows every fetched ticket. */
  lemma {:induction false} ShownAreFiltered(tickets: Option<seq<Ticket>>, query: string, f: TicketFilters, sortBy: string)
    ensures var shown := ShownTickets(tickets, query, f, sortBy);
      && multiset(shown) == multiset(FilteredTickets(tickets, query, f))
      && (forall t :: t in shown <==> tickets.Some? && t in tickets.value && Passes(query, f, t))
      && (forall t :: multiset(shown)[t] ==
            if tickets.Some? && Passes(query, f, t) then multiset(tickets.value)[t] else 0)
      && (tickets.Some? && Unfiltered(query, f) ==> multiset(shown) == multiset(tickets.value))
  {
    var filtered := FilteredTickets(tickets, query, f);
    SortOrders(sortBy, filtered);
    FilteredTicketsProperties(tickets, query, f);
    var shown := ShownTickets(tickets, query, f, sortBy);
    forall t ensures t in shown <==> t in filtered {
      assert t in shown <==> t in multiset(shown);
      assert t in filtered <==> t in multiset(filtered);
    }
    forall t ensures multiset(shown)[t] ==
      if tickets.Some? && Passes(query, f, t) then multiset(tickets.value)[t] else 0
    {
      if tickets.Some? {
        FilterMultiplicity(Keep(query, f), tickets.value, t);
      }
    }
    if tickets.Some? && Unfiltered(query, f) {
      UnfilteredKeepsAll(tickets.value, query, f);
    }
  }
}
