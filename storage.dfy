/** `MemStorage`: the server's in-memory store. Five keyed collections, each with its own
    id counter starting at 1; creating a ticket, updating a ticket and adding a comment
    insert notifications; deleting a ticket deletes its comments and notifications. */
module Storage {
  import opened Domain
  import opened Sequences
  import opened Tables
  import opened Records
  import opened FanOut
  import opened Queries

  /** The id discipline of a collection: every key was handed out by a counter that
      started at 1 and now stands at `next`, keys are in insertion (hence ascending)
      order, and each record carries its own key as its id. */
  ghost predicate Issued<V>(t: Table<V>, next: int, idOf: V -> int) {
    && t.Valid()
    && Ascending(t.keys)
    && (forall k | k in t.entries :: 1 <= k < next && idOf(t.entries[k]) == k)
  }

  lemma {:induction false} IssueFresh<V>(t: Table<V>, next: int, idOf: V -> int, v: V)
    requires Issued(t, next, idOf) && next >= 1 && idOf(v) == next
    ensures next !in t.entries
    ensures Issued(t.Set(next, v), next + 1, idOf)
  {
    var s := t.Set(next, v);
    forall i, j | 0 <= i < j < |s.keys| ensures s.keys[i] < s.keys[j] {
      assert t.keys[i] in t.keys;
      if j == |t.keys| {
        assert s.keys[j] == next;
      } else {
        assert t.keys[j] in t.keys;
      }
    }
  }

  lemma {:induction false} IssuedOverwrite<V>(t: Table<V>, next: int, idOf: V -> int, k: int, v: V)
    requires Issued(t, next, idOf) && k in t.entries && idOf(v) == k
    ensures Issued(t.Set(k, v), next, idOf)
  {
  }

  /** The table without the keys in `gone`, the other entries kept in order. */
  function Purge<V>(t: Table<V>, gone: set<int>): (r: Table<V>)
    requires t.Valid()
    ensures r.Valid()
    ensures r.entries == t.entries - gone
  {
    DropKeepsDistinct(t.keys, gone);
    Table(Drop(t.keys, gone), t.entries - gone)
  }

  lemma {:induction false} PurgeMore<V>(t: Table<V>, gone: set<int>, k: int)
    requires t.Valid()
    ensures Purge(t, gone).Remove(k) == Purge(t, gone + {k})
  {
    DropTwice(t.keys, gone, {k});
    assert (t.entries - gone) - {k} == t.entries - (gone + {k});
  }

  lemma {:induction false} PurgeNothing<V>(t: Table<V>)
    requires t.Valid()
    ensures Purge(t, {}) == t
  {
    DropNothing(t.keys, {});
    assert t.entries - {} == t.entries;
  }

  lemma {:induction false} RemoveIssued<V>(t: Table<V>, next: int, idOf: V -> int, k: int)
    requires Issued(t, next, idOf)
    ensures Issued(t.Remove(k), next, idOf)
  {
    DropAscending(t.keys, {k});
  }

  /** The tickets' id discipline, and every ticket updated no earlier than it was
      created and no later than `clock`. */
  ghost predicate TicketsIssued(t: Table<Ticket>, next: int, clock: int) {
    && Issued(t, next, TicketId) && next >= 1
    && (forall k | k in t.entries :: t.entries[k].createdAt <= t.entries[k].updatedAt <= clock)
  }

  lemma {:induction false} TicketRemoved(t: Table<Ticket>, next: int, clock: int, id: int)
    requires TicketsIssued(t, next, clock)
    ensures TicketsIssued(t.Remove(id), next, clock)
  {
    RemoveIssued(t, next, TicketId, id);
  }

  /** A ticket stamped `now` under the next id keeps the discipline with the clock at `now`. */
  lemma {:induction false} TicketAdded(t: Table<Ticket>, next: int, clock: int, v: Ticket, now: int)
    requires TicketsIssued(t, next, clock) && now >= clock
    requires v.id == next && v.createdAt <= v.updatedAt <= now
    ensures next !in t.entries
    ensures TicketsIssued(t.Set(next, v), next + 1, now)
  {
    IssueFresh(t, next, TicketId, v);
  }

  /** A stored ticket replaced by one with its id, stamped no later than `now`. */
  lemma {:induction false} TicketReplaced(t: Table<Ticket>, next: int, clock: int, v: Ticket, now: int)
    requires TicketsIssued(t, next, clock) && now >= clock
    requires v.id in t.entries && v.createdAt <= v.updatedAt <= now
    ensures TicketsIssued(t.Set(v.id, v), next, now)
  {
    IssuedOverwrite(t, next, TicketId, v.id, v);
  }

  lemma {:induction false} PurgeIssued<V>(t: Table<V>, next: int, idOf: V -> int, gone: set<int>)
    requires Issued(t, next, idOf)
    ensures Issued(Purge(t, gone), next, idOf)
  {
    DropAscending(t.keys, gone);
  }

  /** A value listed by `values()` is stored under its own id. */
  lemma {:induction false} ListedUnderOwnId<V>(t: Table<V>, next: int, idOf: V -> int, v: V)
    requires Issued(t, next, idOf) && v in t.Values()
    ensures idOf(v) in t.entries && t.entries[idOf(v)] == v
  {
    var i :| 0 <= i < |t.Values()| && t.Values()[i] == v;
    assert t.keys[i] in t.entries;
  }

  /** The ids of the records `values().filter(p)` lists are the keys whose record
      satisfies `p`. */
  lemma {:induction false} FilteredIds<V>(t: Table<V>, next: int, idOf: V -> int, p: V -> bool)
    requires Issued(t, next, idOf)
    ensures forall k :: k in IdsOf(Filter(p, t.Values()), idOf) <==> k in t.entries && p(t.entries[k])
  {
    var vs := t.Values();
    var listed := Filter(p, vs);
    forall i | 0 <= i < |listed| ensures idOf(listed[i]) in t.entries && p(t.entries[idOf(listed[i])]) {
      ListedUnderOwnId(t, next, idOf, listed[i]);
    }
    forall k | k in t.entries && p(t.entries[k])
      ensures k in IdsOf(listed, idOf)
    {
      assert k in t.keys;
      var i :| 0 <= i < |t.keys| && t.keys[i] == k;
      assert vs[i] == t.entries[k];
      assert vs[i] in listed;
      var j :| 0 <= j < |listed| && listed[j] == vs[i];
    }
  }

  /** The stored notifications with `ids` marked read. */
  function MarkRead(t: Table<Notification>, ids: set<int>): (r: Table<Notification>)
    requires t.Valid()
    ensures r.Valid() && r.keys == t.keys && r.entries.Keys == t.entries.Keys
  {
    Table(t.keys, map k | k in t.entries :: if k in ids then t.entries[k].(read := true) else t.entries[k])
  }

  /** Every notification of `user` read, every other one as it was. */
  function AllReadFor(t: Table<Notification>, user: int): (r: Table<Notification>)
    requires t.Valid()
    ensures r.Valid() && r.keys == t.keys && r.entries.Keys == t.entries.Keys
    ensures forall k | k in r.entries :: r.entries[k].userId == t.entries[k].userId
    ensures forall k | k in r.entries ::
      r.entries[k] == if t.entries[k].userId == user then t.entries[k].(read := true) else t.entries[k]
  {
    Table(t.keys, map k | k in t.entries ::
      if t.entries[k].userId == user then t.entries[k].(read := true) else t.entries[k])
  }

  /** Afterwards the user has no unread notification, every other user's notifications
      are as they were, and doing it again changes nothing. */
  lemma {:induction false} AllReadForProperties(t: Table<Notification>, user: int)
    requires t.Valid()
    ensures forall k | k in AllReadFor(t, user).entries && AllReadFor(t, user).entries[k].userId == user ::
      AllReadFor(t, user).entries[k].read
    ensures forall k | k in t.entries && t.entries[k].userId != user ::
      AllReadFor(t, user).entries[k] == t.entries[k]
    ensures AllReadFor(AllReadFor(t, user), user) == AllReadFor(t, user)
    ensures NotificationsOf(AllReadFor(t, user).Values(), user, true) == []
  {
    var r := AllReadFor(t, user);
    var again := AllReadFor(r, user);
    assert again.entries == r.entries;
    forall i | 0 <= i < |r.Values()| ensures r.Values()[i].userId == user ==> r.Values()[i].read {
      assert r.keys[i] in r.entries;
    }
  }

  lemma {:induction false} MarkAllKeepsIssued(t: Table<Notification>, next: int, user: int)
    requires Issued(t, next, NotificationId)
    ensures Issued(AllReadFor(t, user), next, NotificationId)
  {
  }

  /** Marking the user's unread notifications one by one marks all of theirs. */
  lemma {:induction false} MarkUnreadIsAllRead(t: Table<Notification>, next: int, user: int)
    requires Issued(t, next, NotificationId)
    ensures MarkRead(t, IdsOf(Filter(NoticeFor(user, true), t.Values()), NotificationId)) == AllReadFor(t, user)
  {
    var ids := IdsOf(Filter(NoticeFor(user, true), t.Values()), NotificationId);
    FilteredIds(t, next, NotificationId, NoticeFor(user, true));
    var a := MarkRead(t, ids);
    var b := AllReadFor(t, user);
    forall k | k in t.entries ensures a.entries[k] == b.entries[k] {
      if t.entries[k].userId == user && t.entries[k].read {
        assert t.entries[k].(read := true) == t.entries[k];
      }
    }
    assert a.entries == b.entries;
  }

  lemma {:induction false} MarkReadMore(t: Table<Notification>, ids: set<int>, k: int)
    requires t.Valid() && k in t.entries
    ensures MarkRead(t, ids).Set(k, t.entries[k].(read := true)) == MarkRead(t, ids + {k})
  {
    assert MarkRead(t, ids).Set(k, t.entries[k].(read := true)).entries == MarkRead(t, ids + {k}).entries;
  }

  lemma {:induction false} MarkReadNothing(t: Table<Notification>)
    requires t.Valid()
    ensures MarkRead(t, {}) == t
  {
    assert MarkRead(t, {}).entries == t.entries;
  }

  /** `createNotification` applied to each draft in turn, each stamped `now` and given
      the next id from `next` on. */
  function InsertAll(t: Table<Notification>, next: int, ds: seq<Draft>, now: int): (r: Table<Notification>)
    requires t.Valid()
    ensures r.Valid()
    decreases |ds|
  {
    if ds == [] then t
    else
      var n := |ds| - 1;
      InsertAll(t, next, ds[..n], now).Set(next + n, NewNotificationRecord(next + n, ds[n], now))
  }

  lemma {:induction false} InsertAllSnoc(t: Table<Notification>, next: int, ds: seq<Draft>, d: Draft, now: int)
    requires t.Valid()
    ensures InsertAll(t, next, ds + [d], now)
         == InsertAll(t, next, ds, now).Set(next + |ds|, NewNotificationRecord(next + |ds|, d, now))
  {
    assert (ds + [d])[..|ds|] == ds;
  }

  /** `lo, lo + 1, ..., lo + n - 1`. */
  function Range(lo: int, n: nat): (r: seq<int>)
    ensures |r| == n && forall i | 0 <= i < n :: r[i] == lo + i
  {
    if n == 0 then [] else Range(lo, n - 1) + [lo + n - 1]
  }

  /** `r` holds what `t` holds, plus the drafts stored under consecutive ids from `next`,
      each as `NewNotificationRecord` makes it, and nothing else. */
  ghost predicate StoredAfter(t: Table<Notification>, next: int, ds: seq<Draft>, now: int, r: Table<Notification>) {
    && (forall k :: k in r.entries <==> k in t.entries || next <= k < next + |ds|)
    && (forall k | k in t.entries :: r.entries[k] == t.entries[k])
    && (forall i | 0 <= i < |ds| :: r.entries[next + i] == NewNotificationRecord(next + i, ds[i], now))
  }

  lemma {:induction false} StoredStep(t: Table<Notification>, next: int, ds: seq<Draft>, now: int,
                                      prev: Table<Notification>)
    requires ds != [] && prev.Valid() && (forall k | k in t.entries :: k < next)
    requires StoredAfter(t, next, ds[..|ds| - 1], now, prev)
    ensures var n := |ds| - 1;
      StoredAfter(t, next, ds, now, prev.Set(next + n, NewNotificationRecord(next + n, ds[n], now)))
  {
    var n := |ds| - 1;
    var r := prev.Set(next + n, NewNotificationRecord(next + n, ds[n], now));
    forall i | 0 <= i < |ds| ensures r.entries[next + i] == NewNotificationRecord(next + i, ds[i], now) {
      if i < n {
        assert ds[..n][i] == ds[i];
      }
    }
  }

  lemma {:induction false} KeysStep(t: Table<Notification>, next: int, n: nat, prev: Table<Notification>,
                                    v: Notification)
    requires prev.Valid() && next + n !in prev.entries && prev.keys == t.keys + Range(next, n)
    ensures prev.Set(next + n, v).keys == t.keys + Range(next, n + 1)
  {
    assert t.keys + Range(next, n) + [next + n] == t.keys + (Range(next, n) + [next + n]);
  }

  /** The drafts land under consecutive ids from `next`, after the records already
      there, which are kept as they were; nothing else is stored, and in the insertion
      order the new ids follow the old keys, in draft order. */
  lemma {:induction false} InsertAllContents(t: Table<Notification>, next: int, ds: seq<Draft>, now: int)
    requires t.Valid() && forall k | k in t.entries :: k < next
    ensures StoredAfter(t, next, ds, now, InsertAll(t, next, ds, now))
    ensures InsertAll(t, next, ds, now).keys == t.keys + Range(next, |ds|)
    decreases |ds|
  {
    if ds == [] {
      assert t.keys + Range(next, 0) == t.keys;
    } else {
      var n := |ds| - 1;
      var prev := InsertAll(t, next, ds[..n], now);
      InsertAllContents(t, next, ds[..n], now);
      StoredStep(t, next, ds, now, prev);
      KeysStep(t, next, n, prev, NewNotificationRecord(next + n, ds[n], now));
    }
  }

  /** Inserting drafts with ids from the counter keeps the id discipline, the counter
      having moved on by the number of drafts. */
  lemma {:induction false} InsertAllIssued(t: Table<Notification>, next: int, ds: seq<Draft>, now: int)
    requires Issued(t, next, NotificationId) && next >= 1
    ensures Issued(InsertAll(t, next, ds, now), next + |ds|, NotificationId)
    decreases |ds|
  {
    if ds != [] {
      var n := |ds| - 1;
      InsertAllIssued(t, next, ds[..n], now);
      IssueFresh(InsertAll(t, next, ds[..n], now), next + n, NotificationId,
                 NewNotificationRecord(next + n, ds[n], now));
    }
  }

  /** The notification is about the ticket. */
  function NoticeOnTicket(ticket: int): Notification -> bool {
    (n: Notification) => n.ticketId == Some(ticket)
  }

  /** `listed.forEach(n => map.set(n.id, { ...n, read: true }))` over notifications
      listed by `values()`. */
  method MarkEach(t: Table<Notification>, next: int, listed: seq<Notification>) returns (r: Table<Notification>)
    requires Issued(t, next, NotificationId)
    requires forall i | 0 <= i < |listed| :: listed[i] in t.Values()
    ensures r == MarkRead(t, IdsOf(listed, NotificationId))
  {
    r := t;
    MarkReadNothing(t);
    var i := 0;
    while i < |listed|
      invariant 0 <= i <= |listed|
      invariant r == MarkRead(t, IdsOf(listed[..i], NotificationId))
    {
      var n := listed[i];
      ListedUnderOwnId(t, next, NotificationId, n);
      assert listed[..i + 1][..i] == listed[..i];
      MarkReadMore(t, IdsOf(listed[..i], NotificationId), n.id);
      r := r.Set(n.id, n.(read := true));
      i := i + 1;
    }
    assert listed[..i] == listed;
  }

  /** `markAllNotificationsAsRead`: the user's unread notifications, as `values()` lists
      them, each stored again as read. */
  method MarkAllRead(t: Table<Notification>, next: int, user: int) returns (r: Table<Notification>)
    requires Issued(t, next, NotificationId)
    ensures r == AllReadFor(t, user)
    ensures Issued(r, next, NotificationId)
  {
    r := MarkEach(t, next, Filter(NoticeFor(user, true), t.Values()));
    MarkUnreadIsAllRead(t, next, user);
    MarkAllKeepsIssued(t, next, user);
  }

  /** The keys whose record satisfies `p`. */
  function Matching<V>(t: Table<V>, p: V -> bool): set<int> {
    set k | k in t.entries && p(t.entries[k])
  }

  /** `values().filter(p)` lists stored records only, each under its own id, and every
      stored record that satisfies `p`. */
  lemma {:induction false} FilterListing<V>(t: Table<V>, next: int, idOf: V -> int, p: V -> bool)
    requires Issued(t, next, idOf)
    ensures var r := Filter(p, t.Values());
      && (forall i | 0 <= i < |r| :: idOf(r[i]) in t.entries && t.entries[idOf(r[i])] == r[i])
      && (forall k | k in t.entries && p(t.entries[k]) :: t.entries[k] in r)
  {
    var all := t.Values();
    var r := Filter(p, all);
    forall i | 0 <= i < |r| ensures idOf(r[i]) in t.entries && t.entries[idOf(r[i])] == r[i] {
      ListedUnderOwnId(t, next, idOf, r[i]);
    }
    forall k | k in t.entries && p(t.entries[k]) ensures t.entries[k] in r {
      assert k in t.keys;
      var i :| 0 <= i < |t.keys| && t.keys[i] == k;
      assert all[i] == t.entries[k];
    }
  }

  /** A selection from `values()` that lists every record `p` selects, with ties under
      `key` in id order, lists each such stored record exactly once, under its own id. */
  lemma {:induction false} StoredSelection<V>(t: Table<V>, next: int, idOf: V -> int, key: V -> int,
                                              p: V -> bool, r: seq<V>)
    requires Issued(t, next, idOf)
    requires forall i | 0 <= i < |r| :: r[i] in t.Values() && p(r[i])
    requires forall i | 0 <= i < |t.Values()| && p(t.Values()[i]) :: t.Values()[i] in r
    requires TiesBy(key, idOf, r)
    ensures forall i | 0 <= i < |r| :: p(r[i]) && idOf(r[i]) in t.entries && t.entries[idOf(r[i])] == r[i]
    ensures forall k | k in t.entries && p(t.entries[k]) :: t.entries[k] in r
    ensures forall i, j | 0 <= i < j < |r| :: idOf(r[i]) != idOf(r[j])
  {
    var all := t.Values();
    forall i | 0 <= i < |r| ensures idOf(r[i]) in t.entries && t.entries[idOf(r[i])] == r[i] {
      ListedUnderOwnId(t, next, idOf, r[i]);
    }
    forall k | k in t.entries && p(t.entries[k]) ensures t.entries[k] in r {
      assert k in t.keys;
      var i :| 0 <= i < |t.keys| && t.keys[i] == k;
      assert all[i] == t.entries[k];
    }
    forall i, j | 0 <= i < j < |r| ensures idOf(r[i]) != idOf(r[j]) {
      assert r[i] == t.entries[idOf(r[i])] && r[j] == t.entries[idOf(r[j])];
    }
  }

  /** `values()` lists the records in ascending id order. */
  lemma {:induction false} ValuesAscending<V>(t: Table<V>, next: int, idOf: V -> int)
    requires Issued(t, next, idOf)
    ensures IncreasingBy(idOf, t.Values())
  {
    var all := t.Values();
    forall i, j | 0 <= i < j < |all| ensures idOf(all[i]) < idOf(all[j]) {
      assert t.keys[i] in t.entries && t.keys[j] in t.entries;
    }
  }

  /** `getTickets` lists stored tickets that meet the filter, each under its own id, and
      all such tickets. */
  lemma {:induction false} TicketListing(t: Table<Ticket>, next: int, f: TicketFilters)
    requires Issued(t, next, TicketId)
    ensures var r := FilterTickets(t.Values(), f);
      && (forall i | 0 <= i < |r| :: r[i].id in t.entries && t.entries[r[i].id] == r[i] && Matches(f, r[i]))
      && (forall k | k in t.entries && Matches(f, t.entries[k]) :: t.entries[k] in r)
  {
    FilterTicketsMatches(t.Values(), f);
    FilterListing(t, next, TicketId, MatchesAll(f));
  }

  /** `getTickets` lists tickets in ascending id order. */
  lemma {:induction false} TicketListingOrder(t: Table<Ticket>, next: int, f: TicketFilters)
    requires Issued(t, next, TicketId)
    ensures var r := FilterTickets(t.Values(), f);
      forall i, j | 0 <= i < j < |r| :: r[i].id < r[j].id
  {
    var all := t.Values();
    FilterTicketsMatches(all, f);
    ValuesAscending(t, next, TicketId);
    FilterIncreasing(TicketId, MatchesAll(f), all);
  }

  /** Deleting the records that satisfy `p` leaves none that does and keeps every other
      record as it was. */
  lemma {:induction false} PurgeMatching<V>(t: Table<V>, p: V -> bool)
    requires t.Valid()
    ensures var r := Purge(t, Matching(t, p));
      && (forall k | k in r.entries :: !p(r.entries[k]))
      && (forall k | k in t.entries && !p(t.entries[k]) :: k in r.entries && r.entries[k] == t.entries[k])
      && |r.keys| == |t.keys| - |Matching(t, p)|
  {
    var gone := Matching(t, p);
    var r := Purge(t, gone);
    DistinctCard(t.keys, t.entries.Keys);
    DistinctCard(r.keys, r.entries.Keys);
    assert gone <= t.entries.Keys;
    assert r.entries.Keys == t.entries.Keys - gone;
  }

  /** The cascade of `deleteTicket`: no comment and no notification of the ticket is
      left, every other one is kept as it was, and the others stay in their order. */
  lemma {:induction false} CascadeClears(cs: Table<Comment>, ns: Table<Notification>, ticket: int)
    requires cs.Valid() && ns.Valid()
    ensures var keptComments := Purge(cs, Matching(cs, OnTicket(ticket)));
      && (forall k | k in keptComments.entries :: keptComments.entries[k].ticketId != ticket)
      && (forall k | k in cs.entries && cs.entries[k].ticketId != ticket ::
            k in keptComments.entries && keptComments.entries[k] == cs.entries[k])
      && IsSubsequence(keptComments.keys, cs.keys)
    ensures var keptNotices := Purge(ns, Matching(ns, NoticeOnTicket(ticket)));
      && (forall k | k in keptNotices.entries :: keptNotices.entries[k].ticketId != Some(ticket))
      && (forall k | k in ns.entries && ns.entries[k].ticketId != Some(ticket) ::
            k in keptNotices.entries && keptNotices.entries[k] == ns.entries[k])
      && IsSubsequence(keptNotices.keys, ns.keys)
  {
    PurgeMatching(cs, OnTicket(ticket));
    PurgeMatching(ns, NoticeOnTicket(ticket));
    DropIsSubsequence(cs.keys, Matching(cs, OnTicket(ticket)));
    DropIsSubsequence(ns.keys, Matching(ns, NoticeOnTicket(ticket)));
  }

  lemma {:induction false} DropIsSubsequence(s: seq<int>, gone: set<int>)
    ensures IsSubsequence(Drop(s, gone), s)
  {
    if s != [] {
      DropIsSubsequence(s[1..], gone);
      if s[0] in gone {
        assert Drop(s, gone) == Drop(s[1..], gone);
        SubsequenceOfTail(Drop(s[1..], gone), s);
      } else {
        assert Drop(s, gone) == [s[0]] + Drop(s[1..], gone);
        assert ([s[0]] + Drop(s[1..], gone))[1..] == Drop(s[1..], gone);
      }
    }
  }

  /** The records `values().filter(p)` lists are exactly those whose key `Matching`
      collects. */
  lemma {:induction false} FilteredIdsMatching<V>(t: Table<V>, next: int, idOf: V -> int, p: V -> bool)
    requires Issued(t, next, idOf)
    ensures IdsOf(Filter(p, t.Values()), idOf) == Matching(t, p)
  {
    FilteredIds(t, next, idOf, p);
    var listed := IdsOf(Filter(p, t.Values()), idOf);
    forall k ensures k in listed <==> k in Matching(t, p) {
    }
  }

  /** `doomed.forEach(r => map.delete(r.id))`. */
  method DeleteEach<V>(t: Table<V>, doomed: seq<V>, idOf: V -> int) returns (r: Table<V>)
    requires t.Valid()
    ensures r == Purge(t, IdsOf(doomed, idOf))
  {
    r := t;
    PurgeNothing(t);
    var i := 0;
    while i < |doomed|
      invariant 0 <= i <= |doomed|
      invariant r == Purge(t, IdsOf(doomed[..i], idOf))
    {
      assert doomed[..i + 1][..i] == doomed[..i];
      PurgeMore(t, IdsOf(doomed[..i], idOf), idOf(doomed[i]));
      r := r.Remove(idOf(doomed[i]));
      i := i + 1;
    }
    assert doomed[..i] == doomed;
  }

  /** `Array.from(map.values()).filter(p).forEach(r => map.delete(r.id))`. */
  method DeleteWhere<V>(t: Table<V>, next: int, idOf: V -> int, p: V -> bool) returns (r: Table<V>)
    requires Issued(t, next, idOf)
    ensures r == Purge(t, Matching(t, p))
    ensures Issued(r, next, idOf)
  {
    r := DeleteEach(t, Filter(p, t.Values()), idOf);
    FilteredIdsMatching(t, next, idOf, p);
    PurgeIssued(t, next, idOf, Matching(t, p));
  }

  /** The ids of the records in a list. */
  function IdsOf<V>(s: seq<V>, idOf: V -> int): (r: set<int>)
    ensures forall i | 0 <= i < |s| :: idOf(s[i]) in r
    ensures forall k | k in r :: exists i | 0 <= i < |s| :: idOf(s[i]) == k
  {
    if s == [] then {} else IdsOf(s[..|s| - 1], idOf) + {idOf(s[|s| - 1])}
  }

  class MemStorage {
    var users: Table<User>
    var categories: Table<Category>
    var tickets: Table<Ticket>
    var comments: Table<Comment>
    var notifications: Table<Notification>

    var userIdCounter: nat
    var categoryIdCounter: nat
    var ticketIdCounter: nat
    var commentIdCounter: nat
    var notificationIdCounter: nat

    /** The latest time a ticket was stamped with: time does not run backwards. */
    ghost var clock: int

    ghost predicate UsersValid()
      reads this`users, this`userIdCounter
    {
      Issued(users, userIdCounter, UserId) && userIdCounter >= 1
    }

    ghost predicate CategoriesValid()
      reads this`categories, this`categoryIdCounter
    {
      Issued(categories, categoryIdCounter, CategoryId) && categoryIdCounter >= 1
    }

    /** Besides the ids: every ticket was updated no earlier than it was created, and
        no later than the clock (`TicketsIssued`). */
    ghost predicate TicketsValid()
      reads this`tickets, this`ticketIdCounter, this`clock
    {
      TicketsIssued(tickets, ticketIdCounter, clock)
    }

    ghost predicate CommentsValid()
      reads this`comments, this`commentIdCounter
    {
      Issued(comments, commentIdCounter, CommentId) && commentIdCounter >= 1
    }

    ghost predicate NotificationsValid()
      reads this`notifications, this`notificationIdCounter
    {
      Issued(notifications, notificationIdCounter, NotificationId) && notificationIdCounter >= 1
    }

    /** Every collection's ids were issued by its counter; ticket timestamps are ordered.
        Each operation requires and keeps the parts for the collections it reads or
        changes; the other parts read only fields outside its `modifies` frame. */
    ghost predicate Valid()
      reads this
    {
      UsersValid() && CategoriesValid() && TicketsValid() && CommentsValid() && NotificationsValid()
    }

    /** An empty store whose counters all stand at 1. */
    constructor ()
      ensures Valid()
      ensures users == Table([], map[]) && categories == Table([], map[]) && tickets == Table([], map[])
      ensures comments == Table([], map[]) && notifications == Table([], map[])
      ensures userIdCounter == 1 && categoryIdCounter == 1 && ticketIdCounter == 1
      ensures commentIdCounter == 1 && notificationIdCounter == 1
    {
      users, categories, tickets := Table([], map[]), Table([], map[]), Table([], map[]);
      comments, notifications := Table([], map[]), Table([], map[]);
      userIdCounter, categoryIdCounter, ticketIdCounter := 1, 1, 1;
      commentIdCounter, notificationIdCounter := 1, 1;
      clock := 0;
    }

    // ---------------------------------------------------------------- users

    function GetUser(id: int): (r: Option<User>)
      reads this
      requires UsersValid()
      ensures r.Some? <==> id in users.entries
      ensures r.Some? ==> r.value == users.entries[id] && r.value.id == id
    {
      users.Get(id)
    }

    function GetUserByUsername(name: string): (r: Option<User>)
      reads this
      requires UsersValid()
      ensures r.Some? ==>
        r.value.username == name && r.value.id in users.entries && users.entries[r.value.id] == r.value
      ensures r.None? <==> forall k | k in users.entries :: users.entries[k].username != name
      ensures r.Some? ==> forall k | k in users.entries && k < r.value.id :: users.entries[k].username != name
    {
      var us := users.Values();
      var r := FindByUsername(us, name);
      if r.Some? then
        assert r.value in us;
        ListedUnderOwnId(users, userIdCounter, UserId, r.value);
        FirstByUsername(users, userIdCounter, name, r.value);
        r
      else
        assert forall k | k in users.entries :: users.entries[k].username != name by {
          forall k | k in users.entries ensures users.entries[k].username != name {
            assert k in users.keys;
          }
        }
        r
    }

    function GetUsers(): (r: seq<User>)
      reads this
      requires UsersValid()
      ensures |r| == |users.entries|
      ensures forall i, j | 0 <= i < j < |r| :: r[i].id < r[j].id
      ensures forall i | 0 <= i < |r| :: r[i].id in users.entries && users.entries[r[i].id] == r[i]
    {
      DistinctCard(users.keys, users.entries.Keys);
      users.Values()
    }

    method CreateUser(u: NewUser) returns (user: User)
      requires UsersValid()
      modifies this`users, this`userIdCounter
      ensures UsersValid()
      ensures user == NewUserRecord(old(userIdCounter), u)
      ensures forall k | k in old(users.entries) :: k < user.id
      ensures users == old(users).Set(user.id, user) && userIdCounter == user.id + 1
    {
      var id := userIdCounter;
      userIdCounter := userIdCounter + 1;
      user := NewUserRecord(id, u);
      IssueFresh(users, id, UserId, user);
      users := users.Set(id, user);
    }

    method UpdateUser(id: int, patch: UserPatch) returns (r: Option<User>)
      requires UsersValid()
      modifies this`users
      ensures UsersValid()
      ensures r.Some? <==> id in old(users.entries)
      ensures r.None? ==> users == old(users)
      ensures r.Some? ==> r.value == MergeUser(old(users.entries[id]), patch)
      ensures r.Some? ==> users == old(users).Set(id, r.value)
    {
      var found := users.Get(id);
      if found.None? {
        return None;
      }
      var updated := MergeUser(found.value, patch);
      IssuedOverwrite(users, userIdCounter, UserId, id, updated);
      users := users.Set(id, updated);
      r := Some(updated);
    }

    method DeleteUser(id: int) returns (existed: bool)
      requires UsersValid()
      modifies this`users
      ensures UsersValid()
      ensures existed == (id in old(users.entries))
      ensures users == old(users).Remove(id)
    {
      existed := id in users.entries;
      PurgeIssued(users, userIdCounter, UserId, {id});
      users := users.Remove(id);
    }

    // ----------------------------------------------------------- categories

    function GetCategory(id: int): (r: Option<Category>)
      reads this
      requires CategoriesValid()
      ensures r.Some? <==> id in categories.entries
      ensures r.Some? ==> r.value == categories.entries[id] && r.value.id == id
    {
      categories.Get(id)
    }

    function GetCategories(): (r: seq<Category>)
      reads this
      requires CategoriesValid()
      ensures |r| == |categories.entries|
      ensures forall i, j | 0 <= i < j < |r| :: r[i].id < r[j].id
      ensures forall i | 0 <= i < |r| :: r[i].id in categories.entries && categories.entries[r[i].id] == r[i]
    {
      DistinctCard(categories.keys, categories.entries.Keys);
      categories.Values()
    }

    method CreateCategory(c: NewCategory) returns (category: Category)
      requires CategoriesValid()
      modifies this`categories, this`categoryIdCounter
      ensures CategoriesValid()
      ensures category == NewCategoryRecord(old(categoryIdCounter), c)
      ensures forall k | k in old(categories.entries) :: k < category.id
      ensures categories == old(categories).Set(category.id, category)
      ensures categoryIdCounter == category.id + 1
    {
      var id := categoryIdCounter;
      categoryIdCounter := categoryIdCounter + 1;
      category := NewCategoryRecord(id, c);
      IssueFresh(categories, id, CategoryId, category);
      categories := categories.Set(id, category);
    }

    method UpdateCategory(id: int, patch: CategoryPatch) returns (r: Option<Category>)
      requires CategoriesValid()
      modifies this`categories
      ensures CategoriesValid()
      ensures r.Some? <==> id in old(categories.entries)
      ensures r.None? ==> categories == old(categories)
      ensures r.Some? ==> r.value == MergeCategory(old(categories.entries[id]), patch)
      ensures r.Some? ==> categories == old(categories).Set(id, r.value)
    {
      var found := categories.Get(id);
      if found.None? {
        return None;
      }
      var updated := MergeCategory(found.value, patch);
      IssuedOverwrite(categories, categoryIdCounter, CategoryId, id, updated);
      categories := categories.Set(id, updated);
      r := Some(updated);
    }

    method DeleteCategory(id: int) returns (existed: bool)
      requires CategoriesValid()
      modifies this`categories
      ensures CategoriesValid()
      ensures existed == (id in old(categories.entries))
      ensures categories == old(categories).Remove(id)
    {
      existed := id in categories.entries;
      PurgeIssued(categories, categoryIdCounter, CategoryId, {id});
      categories := categories.Remove(id);
    }

    // -------------------------------------------------------------- tickets

    function GetTicket(id: int): (r: Option<Ticket>)
      reads this
      requires TicketsValid()
      ensures r.Some? <==> id in tickets.entries
      ensures r.Some? ==> r.value == tickets.entries[id] && r.value.id == id
      ensures r.Some? ==> r.value.createdAt <= r.value.updatedAt
    {
      tickets.Get(id)
    }

    /** The stored tickets that meet every supplied criterion, in ascending id order. */
    function GetTickets(f: TicketFilters): (r: seq<Ticket>)
      reads this
      requires TicketsValid()
      ensures forall i | 0 <= i < |r| ::
        r[i].id in tickets.entries && tickets.entries[r[i].id] == r[i] && Matches(f, r[i])
      ensures forall k | k in tickets.entries && Matches(f, tickets.entries[k]) :: tickets.entries[k] in r
      ensures forall i, j | 0 <= i < j < |r| :: r[i].id < r[j].id
    {
      TicketListing(tickets, ticketIdCounter, f);
      TicketListingOrder(tickets, ticketIdCounter, f);
      FilterTickets(tickets.Values(), f)
    }

    function GetTicketsWithDetails(f: TicketFilters): (r: seq<Details>)
      reads this
      requires TicketsValid()
      ensures |r| == |GetTickets(f)|
      ensures forall i | 0 <= i < |r| :: r[i] == WithDetails(users, categories, GetTickets(f)[i])
    {
      AllWithDetails(users, categories, GetTickets(f))
    }

    /** One ticket with its related records and its comments, oldest first. */
    function GetTicketWithDetails(id: int): (r: Option<(Details, seq<Comment>)>)
      reads this
      requires TicketsValid() && CommentsValid()
      ensures r.Some? <==> id in tickets.entries
      ensures r.Some? ==> r.value.0 == WithDetails(users, categories, tickets.entries[id])
      ensures r.Some? ==> r.value.1 == CommentsOf(comments.Values(), id)
    {
      if id in tickets.entries then
        Some((WithDetails(users, categories, tickets.entries[id]), CommentsOf(comments.Values(), id)))
      else None
    }

    /** `createNotification` for a draft: the next notification id, stamped `now`. */
    method CreateNotification(d: Draft, now: nat) returns (n: Notification)
      requires NotificationsValid()
      modifies this`notifications, this`notificationIdCounter
      ensures NotificationsValid()
      ensures n == NewNotificationRecord(old(notificationIdCounter), d, now)
      ensures forall k | k in old(notifications.entries) :: k < n.id
      ensures notifications == old(notifications).Set(n.id, n) && notificationIdCounter == n.id + 1
    {
      var id := notificationIdCounter;
      notificationIdCounter := notificationIdCounter + 1;
      n := NewNotificationRecord(id, d, now);
      IssueFresh(notifications, id, NotificationId, n);
      notifications := notifications.Set(id, n);
    }

    /** `createNotification` for each draft in turn. */
    method Notify(ds: seq<Draft>, now: nat)
      requires NotificationsValid()
      modifies this`notifications, this`notificationIdCounter
      ensures NotificationsValid()
      ensures notifications == InsertAll(old(notifications), old(notificationIdCounter), ds, now)
      ensures notificationIdCounter == old(notificationIdCounter) + |ds|
    {
      var i := 0;
      while i < |ds|
        invariant 0 <= i <= |ds|
        invariant NotificationsValid()
        invariant notifications == InsertAll(old(notifications), old(notificationIdCounter), ds[..i], now)
        invariant notificationIdCounter == old(notificationIdCounter) + i
      {
        assert ds[..i + 1] == ds[..i] + [ds[i]];
        InsertAllSnoc(old(notifications), old(notificationIdCounter), ds[..i], ds[i], now);
        var _ := CreateNotification(ds[i], now);
        i := i + 1;
      }
      assert ds[..i] == ds;
    }

    method CreateTicket(t: NewTicket, now: nat) returns (ticket: Ticket)
      requires TicketsValid() && NotificationsValid() && now >= clock
      modifies this`tickets, this`ticketIdCounter, this`clock, this`notifications, this`notificationIdCounter
      ensures TicketsValid() && NotificationsValid() && clock == now
      ensures ticket == NewTicketRecord(old(ticketIdCounter), t, now)
      ensures forall k | k in old(tickets.entries) :: k < ticket.id
      ensures tickets == old(tickets).Set(ticket.id, ticket) && ticketIdCounter == ticket.id + 1
      ensures notifications == InsertAll(old(notifications), old(notificationIdCounter), OnCreateTicket(ticket), now)
      ensures notificationIdCounter == old(notificationIdCounter) + |OnCreateTicket(ticket)|
    {
      var id := ticketIdCounter;
      ticketIdCounter := ticketIdCounter + 1;
      ticket := NewTicketRecord(id, t, now);
      TicketAdded(tickets, id, clock, ticket, now);
      tickets := tickets.Set(id, ticket);
      clock := now;
      Notify(OnCreateTicket(ticket), now);
    }

    method UpdateTicket(id: int, patch: TicketPatch, now: nat) returns (r: Option<Ticket>)
      requires TicketsValid() && NotificationsValid() && now >= clock
      modifies this`tickets, this`clock, this`notifications, this`notificationIdCounter
      ensures TicketsValid() && NotificationsValid()
      ensures r.Some? <==> id in old(tickets.entries)
      ensures r.None? ==> tickets == old(tickets) && clock == old(clock)
      ensures r.None? ==> notifications == old(notifications) && notificationIdCounter == old(notificationIdCounter)
      ensures r.Some? ==> r.value == MergeTicket(old(tickets.entries[id]), patch, now)
      ensures r.Some? ==> tickets == old(tickets).Set(id, r.value) && clock == now
      ensures r.Some? ==>
        var notices := OnUpdateTicket(old(tickets.entries[id]), patch);
        && notifications == InsertAll(old(notifications), old(notificationIdCounter), notices, now)
        && notificationIdCounter == old(notificationIdCounter) + |notices|
    {
      var found := tickets.Get(id);
      if found.None? {
        return None;
      }
      var before := found.value;
      var updated := MergeTicket(before, patch, now);
      assert before.createdAt <= before.updatedAt;
      TicketReplaced(tickets, ticketIdCounter, clock, updated, now);
      tickets := tickets.Set(id, updated);
      clock := now;
      Notify(OnUpdateTicket(before, patch), now);
      r := Some(updated);
    }

    /** Deletes every comment on the ticket. */
    method DeleteCommentsOf(ticket: int)
      requires CommentsValid()
      modifies this`comments
      ensures CommentsValid()
      ensures comments == Purge(old(comments), Matching(old(comments), OnTicket(ticket)))
    {
      comments := DeleteWhere(comments, commentIdCounter, CommentId, OnTicket(ticket));
    }

    /** Deletes every notification about the ticket. */
    method DeleteNotificationsOf(ticket: int)
      requires NotificationsValid()
      modifies this`notifications
      ensures NotificationsValid()
      ensures notifications == Purge(old(notifications), Matching(old(notifications), NoticeOnTicket(ticket)))
    {
      notifications := DeleteWhere(notifications, notificationIdCounter, NotificationId, NoticeOnTicket(ticket));
    }

    /** `tickets.delete(id)`. */
    method RemoveTicket(id: int) returns (existed: bool)
      requires TicketsValid()
      modifies this`tickets
      ensures TicketsValid()
      ensures existed == (id in old(tickets.entries))
      ensures tickets == old(tickets).Remove(id)
    {
      existed := id in tickets.entries;
      TicketRemoved(tickets, ticketIdCounter, clock, id);
      tickets := tickets.Remove(id);
    }

    /** Deletes the ticket's comments and notifications, then the ticket itself; the
        result says whether the ticket existed. */
    method DeleteTicket(id: int) returns (existed: bool)
      requires TicketsValid() && CommentsValid() && NotificationsValid()
      modifies this`tickets, this`comments, this`notifications
      ensures TicketsValid() && CommentsValid() && NotificationsValid()
      ensures existed == (id in old(tickets.entries))
      ensures tickets == old(tickets).Remove(id)
      ensures comments == Purge(old(comments), Matching(old(comments), OnTicket(id)))
      ensures notifications == Purge(old(notifications), Matching(old(notifications), NoticeOnTicket(id)))
    {
      DeleteCommentsOf(id);
      DeleteNotificationsOf(id);
      existed := RemoveTicket(id);
    }

    // ------------------------------------------------------------- comments

    function GetComment(id: int): (r: Option<Comment>)
      reads this
      requires CommentsValid()
      ensures r.Some? <==> id in comments.entries
      ensures r.Some? ==> r.value == comments.entries[id] && r.value.id == id
    {
      comments.Get(id)
    }

    /** The ticket's comments, oldest first. */
    function GetCommentsByTicket(ticketId: int): (r: seq<Comment>)
      reads this
      requires CommentsValid()
      ensures forall i | 0 <= i < |r| ::
        r[i].ticketId == ticketId && r[i].id in comments.entries && comments.entries[r[i].id] == r[i]
      ensures forall k | k in comments.entries && comments.entries[k].ticketId == ticketId ::
        comments.entries[k] in r
      ensures forall i, j | 0 <= i < j < |r| :: r[i].createdAt <= r[j].createdAt
      ensures forall i, j | 0 <= i < j < |r| && r[i].createdAt == r[j].createdAt :: r[i].id < r[j].id
      ensures forall i, j | 0 <= i < j < |r| :: r[i].id != r[j].id
    {
      ValuesAscending(comments, commentIdCounter, CommentId);
      var r := CommentsOf(comments.Values(), ticketId);
      StoredSelection(comments, commentIdCounter, CommentId, CommentTime, OnTicket(ticketId), r);
      r
    }

    /** Stores the comment whether or not its ticket exists, then notifies as
        `OnComment` says. */
    method CreateComment(c: NewComment, now: nat) returns (comment: Comment)
      requires CommentsValid() && NotificationsValid()
      modifies this`comments, this`commentIdCounter, this`notifications, this`notificationIdCounter
      ensures CommentsValid() && NotificationsValid()
      ensures comment == NewCommentRecord(old(commentIdCounter), c, now)
      ensures forall k | k in old(comments.entries) :: k < comment.id
      ensures comments == old(comments).Set(comment.id, comment) && commentIdCounter == comment.id + 1
      ensures var notices := OnComment(tickets.Get(c.ticketId), c.userId);
        && notifications == InsertAll(old(notifications), old(notificationIdCounter), notices, now)
        && notificationIdCounter == old(notificationIdCounter) + |notices|
    {
      var id := commentIdCounter;
      commentIdCounter := commentIdCounter + 1;
      comment := NewCommentRecord(id, c, now);
      IssueFresh(comments, id, CommentId, comment);
      comments := comments.Set(id, comment);
      Notify(OnComment(tickets.Get(comment.ticketId), comment.userId), now);
    }

    method DeleteComment(id: int) returns (existed: bool)
      requires CommentsValid()
      modifies this`comments
      ensures CommentsValid()
      ensures existed == (id in old(comments.entries))
      ensures comments == old(comments).Remove(id)
    {
      existed := id in comments.entries;
      PurgeIssued(comments, commentIdCounter, CommentId, {id});
      comments := comments.Remove(id);
    }

    // -------------------------------------------------------- notifications

    function GetNotification(id: int): (r: Option<Notification>)
      reads this
      requires NotificationsValid()
      ensures r.Some? <==> id in notifications.entries
      ensures r.Some? ==> r.value == notifications.entries[id] && r.value.id == id
    {
      notifications.Get(id)
    }

    /** The user's notifications (only the unread ones when `unreadOnly`), newest first. */
    function GetNotificationsByUser(userId: int, unreadOnly: bool): (r: seq<Notification>)
      reads this
      requires NotificationsValid()
      ensures forall i | 0 <= i < |r| ::
        && r[i].userId == userId && (unreadOnly ==> !r[i].read)
        && r[i].id in notifications.entries && notifications.entries[r[i].id] == r[i]
      ensures forall k | k in notifications.entries && NoticeFor(userId, unreadOnly)(notifications.entries[k]) ::
        notifications.entries[k] in r
      ensures forall i, j | 0 <= i < j < |r| :: r[i].createdAt >= r[j].createdAt
      ensures forall i, j | 0 <= i < j < |r| && r[i].createdAt == r[j].createdAt :: r[i].id < r[j].id
      ensures forall i, j | 0 <= i < j < |r| :: r[i].id != r[j].id
    {
      ValuesAscending(notifications, notificationIdCounter, NotificationId);
      var r := NotificationsOf(notifications.Values(), userId, unreadOnly);
      StoredSelection(notifications, notificationIdCounter, NotificationId, NewerFirst, NoticeFor(userId, unreadOnly), r);
      r
    }

    method MarkNotificationAsRead(id: int) returns (ok: bool)
      requires NotificationsValid()
      modifies this`notifications
      ensures NotificationsValid()
      ensures ok == (id in old(notifications.entries))
      ensures !ok ==> notifications == old(notifications)
      ensures ok ==> notifications == old(notifications).Set(id, old(notifications.entries[id]).(read := true))
    {
      var found := notifications.Get(id);
      if found.None? {
        return false;
      }
      IssuedOverwrite(notifications, notificationIdCounter, NotificationId, id, found.value.(read := true));
      notifications := notifications.Set(id, found.value.(read := true));
      return true;
    }

    /** Marks every unread notification of the user read, one at a time; always true. */
    method MarkAllNotificationsAsRead(userId: int) returns (ok: bool)
      requires NotificationsValid()
      modifies this`notifications
      ensures NotificationsValid()
      ensures ok
      ensures notifications == AllReadFor(old(notifications), userId)
    {
      notifications := MarkAllRead(notifications, notificationIdCounter, userId);
      ok := true;
    }

    method DeleteNotification(id: int) returns (existed: bool)
      requires NotificationsValid()
      modifies this`notifications
      ensures NotificationsValid()
      ensures existed == (id in old(notifications.entries))
      ensures notifications == old(notifications).Remove(id)
    {
      existed := id in notifications.entries;
      PurgeIssued(notifications, notificationIdCounter, NotificationId, {id});
      notifications := notifications.Remove(id);
    }

    // ---------------------------------------------------------------- stats

    /** `getTicketStats()` with the local midnight of the current day as a parameter:
        each count is the number of stored tickets with that status or priority (or,
        for `resolvedTickets`, resolved and last updated since midnight). */
    function GetTicketStats(startOfToday: int): (r: Stats)
      reads this
      requires TicketsValid()
      ensures r.total == |tickets.entries|
      ensures r.openTickets == |Matching(tickets, StatusIs(Some(Open)))|
      ensures r.inProgressTickets == |Matching(tickets, StatusIs(Some(InProgress)))|
      ensures r.closedTickets == |Matching(tickets, StatusIs(Some(Closed)))|
      ensures r.resolvedTickets == |Matching(tickets, ResolvedSince(startOfToday))|
      ensures r.highPriorityCount == |Matching(tickets, PriorityIs(Some(High)))|
      ensures r.mediumPriorityCount == |Matching(tickets, PriorityIs(Some(Medium)))|
      ensures r.lowPriorityCount == |Matching(tickets, PriorityIs(Some(Low)))|
      ensures r.openTickets + r.inProgressTickets + |Matching(tickets, StatusIs(Some(Resolved)))|
              + r.closedTickets + |Matching(tickets, StatusIs(None))| == r.total
      ensures r.highPriorityCount + r.mediumPriorityCount + r.lowPriorityCount
              + |Matching(tickets, PriorityIs(None))| == r.total
      ensures r.resolvedTickets <= |Matching(tickets, StatusIs(Some(Resolved)))|
      ensures r.avgResponseTime == "3.2h"
    {
      DistinctCard(tickets.keys, tickets.entries.Keys);
      StatusCounts(tickets, ticketIdCounter, startOfToday);
      TicketStats(tickets.Values(), startOfToday)
    }
  }

  /** The counts `getTicketStats` takes over `values()` are the numbers of stored tickets. */
  lemma {:induction false} StatusCounts(t: Table<Ticket>, next: int, startOfToday: int)
    requires Issued(t, next, TicketId)
    ensures CountStatus(t.Values(), Some(Open)) == |Matching(t, StatusIs(Some(Open)))|
    ensures CountStatus(t.Values(), Some(InProgress)) == |Matching(t, StatusIs(Some(InProgress)))|
    ensures CountStatus(t.Values(), Some(Resolved)) == |Matching(t, StatusIs(Some(Resolved)))|
    ensures CountStatus(t.Values(), Some(Closed)) == |Matching(t, StatusIs(Some(Closed)))|
    ensures CountStatus(t.Values(), None) == |Matching(t, StatusIs(None))|
    ensures CountPriority(t.Values(), Some(High)) == |Matching(t, PriorityIs(Some(High)))|
    ensures CountPriority(t.Values(), Some(Medium)) == |Matching(t, PriorityIs(Some(Medium)))|
    ensures CountPriority(t.Values(), Some(Low)) == |Matching(t, PriorityIs(Some(Low)))|
    ensures CountPriority(t.Values(), None) == |Matching(t, PriorityIs(None))|
    ensures Count(ResolvedSince(startOfToday), t.Values()) == |Matching(t, ResolvedSince(startOfToday))|
  {
    CountMatching(t, next, TicketId, StatusIs(Some(Open)));
    CountMatching(t, next, TicketId, StatusIs(Some(InProgress)));
    CountMatching(t, next, TicketId, StatusIs(Some(Resolved)));
    CountMatching(t, next, TicketId, StatusIs(Some(Closed)));
    CountMatching(t, next, TicketId, StatusIs(None));
    CountMatching(t, next, TicketId, PriorityIs(Some(High)));
    CountMatching(t, next, TicketId, PriorityIs(Some(Medium)));
    CountMatching(t, next, TicketId, PriorityIs(Some(Low)));
    CountMatching(t, next, TicketId, PriorityIs(None));
    CountMatching(t, next, TicketId, ResolvedSince(startOfToday));
  }

  /** Counting the records `values()` lists that satisfy `p` counts the stored records
      that do. */
  lemma {:induction false} CountMatching<V>(t: Table<V>, next: int, idOf: V -> int, p: V -> bool)
    requires Issued(t, next, idOf)
    ensures Count(p, t.Values()) == |Matching(t, p)|
  {
    ValuesAscending(t, next, idOf);
    FilterIncreasing(idOf, p, t.Values());
    IdsOfIncreasing(Filter(p, t.Values()), idOf);
    FilteredIdsMatching(t, next, idOf, p);
  }

  /** A list in ascending id order has as many ids as records. */
  lemma {:induction false} IdsOfIncreasing<V>(s: seq<V>, idOf: V -> int)
    requires IncreasingBy(idOf, s)
    ensures |IdsOf(s, idOf)| == |s|
    decreases |s|
  {
    if s != [] {
      var init := s[..|s| - 1];
      assert IncreasingBy(idOf, init) by {
        forall i, j | 0 <= i < j < |init| ensures idOf(init[i]) < idOf(init[j]) {
          assert init[i] == s[i] && init[j] == s[j];
        }
      }
      IdsOfIncreasing(init, idOf);
      var last := idOf(s[|s| - 1]);
      assert last !in IdsOf(init, idOf) by {
        forall i | 0 <= i < |init| ensures idOf(init[i]) != last {
          assert init[i] == s[i];
        }
      }
    }
  }

  /** A user `values()` lists first among those with the name has the least id among them. */
  lemma {:induction false} FirstByUsername(t: Table<User>, next: int, name: string, u: User)
    requires Issued(t, next, UserId)
    requires exists i | 0 <= i < |t.Values()| ::
      t.Values()[i] == u && forall j | 0 <= j < i :: t.Values()[j].username != name
    ensures forall k | k in t.entries && k < u.id :: t.entries[k].username != name
  {
    var us := t.Values();
    var i :| 0 <= i < |us| && us[i] == u && forall j | 0 <= j < i :: us[j].username != name;
    assert t.keys[i] in t.entries;
    forall k | k in t.entries && k < u.id ensures t.entries[k].username != name {
      assert k in t.keys;
      var m :| 0 <= m < |t.keys| && t.keys[m] == k;
      assert t.keys[m] in t.entries;
      assert m < i;
    }
  }

  /** A list of distinct keys naming exactly the keys of a map is as long as the map. */
  lemma {:induction false} DistinctCard(s: seq<int>, ks: set<int>)
    requires Distinct(s) && forall k :: k in s <==> k in ks
    ensures |s| == |ks|
  {
    if s != [] {
      var rest := s[1..];
      assert Distinct(rest);
      assert forall k :: k in rest <==> k in ks - {s[0]} by {
        forall k ensures k in rest <==> k in ks - {s[0]} {
          if k in rest {
            var i :| 0 <= i < |rest| && rest[i] == k;
            assert s[i + 1] == k;
          }
          if k in ks - {s[0]} {
            assert k in s;
            var i :| 0 <= i < |s| && s[i] == k;
            assert i != 0;
            assert rest[i - 1] == k;
          }
        }
      }
      DistinctCard(rest, ks - {s[0]});
      assert s[0] in ks by { assert s[0] in s; }
      assert |ks - {s[0]}| == |ks| - 1;
    } else {
      forall k ensures k !in ks {
        assert k !in s;
      }
      assert ks == {};
    }
  }
}
