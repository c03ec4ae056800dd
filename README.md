# Help-desk ticketing: store, ticket list and ticket component

This project models the core of a help-desk ticketing application and proves
properties of that model in Dafny. Users open tickets. Agents are assigned to
tickets and work them through the statuses open, in progress, resolved and
closed. Comments and notifications hang off each ticket. Three parts are modelled:

- **The server's in-memory store** (`MemStorage` in `server/storage.ts`). It
  has five collections (users, categories, tickets, comments and
  notifications), each keyed by an id issued from its own counter starting
  at 1. The model covers:
  - the create, read, update and delete operations;
  - the notifications that creating a ticket, updating a ticket and adding a
    comment insert;
  - the cascade that deletes a ticket's comments and notifications with the
    ticket;
  - the per-ticket and per-user listings;
  - the dashboard statistics.
- **The ticket list of the web client's Tickets page.** It filters the
  fetched tickets by search text, status, priority, category and assignee,
  then sorts them by the chosen option.
- **The ticket list component of the Angular front end.** It decides who may
  edit a ticket, picks the CSS class of each status and priority badge, and
  builds the filter object it sends when it loads tickets.

Modules:

| file | module | contents |
|---|---|---|
| `domain.dfy` | `Domain` | the records (user, category, ticket, comment, notification), roles, statuses, priorities, notification types and message templates, the insert and patch shapes, the server ticket filter |
| `records.dfy` | `Records` | building a stored record from an insert (`{ ...insert, id }`) and merging a partial update (`{ ...old, ...patch }`) |
| `fanout.dfy` | `FanOut` | which notifications a ticket creation, a ticket update or a new comment produces |
| `sequences.dfy` | `Sequences` | filter, count and a stable insertion sort over sequences, with their laws |
| `tables.dfy` | `Tables` | an insertion-ordered map: JavaScript's `Map` as a key order plus contents |
| `queries.dfy` | `Queries` | the store's read paths as functions of snapshots |
| `storage.dfy` | `Storage` | the `MemStorage` class, its id discipline and the loops that mark notifications read and delete records in bulk |
| `tickets_page.dfy` | `TicketsPage` | the Tickets page's search, filter and sort |
| `tickets_component.dfy` | `TicketsView` | the Angular `TicketsComponent` |

`MemStorage` is a class whose fields are the five tables and the five
counters. Each method modifies only the fields it changes. Every collection
keeps the same id discipline:

- keys are listed in insertion order, and that order is ascending;
- every key lies in `[1, counter)`;
- every record carries its own key as its id.

Tickets also satisfy `createdAt <= updatedAt <= clock`. Here `clock` is a
ghost field holding the latest time stamp the store has written.

Every method keeps this discipline. Its `ensures` give the new contents in
terms of the old contents. The loops of the source are `while` loops proved
against specification functions:

- `markAllNotificationsAsRead`'s `forEach` against `AllReadFor`;
- `deleteTicket`'s two `forEach` deletions against `Purge` of the records
  that `Matching` selects;
- the run of `createNotification` calls against `InsertAll`.

## Model

| member | source | states |
|---|---|---|
| Storage.MemStorage.constructor | server/storage.ts:67-78 | the store starts with five empty collections, every id counter at 1 and the discipline holding |
| Storage.MemStorage.GetUser | server/storage.ts:231-233 | a user is returned exactly when the id is stored, and it is the record under that id |
| Storage.MemStorage.GetUserByUsername | server/storage.ts:235-239 | a returned user has that username and is stored under its own id, and no user stored under a smaller id (earlier in insertion order) has the name; nothing is returned exactly when no stored user has the name |
| Storage.FirstByUsername | server/storage.ts:236-238 | the first user `values()` lists with a given name has the least id among the users with that name |
| Storage.MemStorage.GetUsers | server/storage.ts:241-243 | one entry per stored user, each the record under its id, in ascending id order |
| Storage.MemStorage.CreateUser | server/storage.ts:245-251 | the user gets the next counter value as id, above every stored id; it is stored under that id and the counter moves past it |
| Storage.MemStorage.UpdateUser | server/storage.ts:253-260 | a missing id returns nothing and changes nothing; otherwise the record is the old one merged with the patch and is stored back under the same id |
| Storage.MemStorage.DeleteUser | server/storage.ts:262-264 | the result says whether the id was stored; that one key is removed, and the other records and their order are kept |
| Storage.MemStorage.GetCategory | server/storage.ts:267-269 | a category is returned exactly when the id is stored, and it is the record under that id |
| Storage.MemStorage.GetCategories | server/storage.ts:271-273 | one entry per stored category, each the record under its id, in ascending id order |
| Storage.MemStorage.CreateCategory | server/storage.ts:275-280 | the category gets a fresh id from the counter, above every stored id, and is stored under it |
| Storage.MemStorage.UpdateCategory | server/storage.ts:282-289 | a missing id returns nothing and changes nothing; otherwise the merged record is stored under the same id |
| Storage.MemStorage.DeleteCategory | server/storage.ts:291-293 | the result says whether the id was stored; only that key is removed |
| Storage.MemStorage.GetTicket | server/storage.ts:296-298 | a ticket is returned exactly when the id is stored; it is the record under that id, and it was updated no earlier than it was created |
| Storage.MemStorage.GetTicketWithDetails | server/storage.ts:300-316 | nothing when the ticket is missing; otherwise the ticket with its creator, assignee and category, and its comments oldest first |
| Storage.MemStorage.GetTickets | server/storage.ts:318-344 | every listed ticket is stored under its own id and meets every supplied criterion; every stored ticket that meets them is listed; the order is ascending by id |
| Storage.MemStorage.GetTicketsWithDetails | server/storage.ts:346-360 | one enriched entry per ticket `getTickets` lists, in the same order |
| Storage.MemStorage.CreateTicket | server/storage.ts:362-385 | a fresh id and both time stamps `now`; the ticket is stored with the status and priority the insert supplies, absent when it omits them; exactly the notifications `OnCreateTicket` yields are inserted under the next notification ids |
| Storage.MemStorage.UpdateTicket | server/storage.ts:387-422 | a missing id changes nothing; otherwise the merged ticket, with `updatedAt` set to `now`, is stored under the same id, and the notices `OnUpdateTicket` derives from the ticket as it was are inserted |
| Storage.MemStorage.DeleteCommentsOf | server/storage.ts:425-428 | exactly the comments on the ticket are deleted |
| Storage.MemStorage.DeleteNotificationsOf | server/storage.ts:430-433 | exactly the notifications about the ticket are deleted |
| Storage.MemStorage.RemoveTicket | server/storage.ts:435 | the result says whether the ticket was stored; only that key is removed |
| Storage.MemStorage.DeleteTicket | server/storage.ts:424-436 | in the source's order, the ticket's comments are deleted, then its notifications, then the ticket; the result says whether the ticket existed |
| Storage.MemStorage.GetComment | server/storage.ts:439-441 | a comment is returned exactly when the id is stored, and it is the record under that id |
| Storage.MemStorage.GetCommentsByTicket | server/storage.ts:443-447 | every listed comment belongs to the ticket and is stored under its id; every stored comment of the ticket is listed, and no two entries share an id, so each is listed once; the list is oldest first, and comments with equal times come in ascending id order |
| Storage.MemStorage.CreateComment | server/storage.ts:449-485 | the comment is stored under a fresh id, whether or not its ticket exists, and exactly the notices `OnComment` derives are inserted |
| Storage.MemStorage.DeleteComment | server/storage.ts:487-489 | the result says whether the id was stored; only that key is removed |
| Storage.MemStorage.GetNotification | server/storage.ts:492-494 | a notification is returned exactly when the id is stored, and it is the record under that id |
| Storage.MemStorage.GetNotificationsByUser | server/storage.ts:496-506 | every listed notice is the user's (and unread, for the unread variant) and stored under its id; every such stored notice is listed, and no two entries share an id; the list is newest first, and notices with equal times come in ascending id order |
| Storage.MemStorage.CreateNotification | server/storage.ts:508-517 | the notice gets a fresh id, above every stored id, and the time stamp `now`, and is stored under that id |
| Storage.MemStorage.Notify | server/storage.ts:374-382 | `createNotification` for each draft in turn: the notifications become `InsertAll` of the drafts, and the counter advances by their number |
| Storage.MemStorage.MarkNotificationAsRead | server/storage.ts:519-526 | false and no change for a missing id; otherwise true, and only that notice changes, to read |
| Storage.MemStorage.MarkAllNotificationsAsRead | server/storage.ts:528-538 | always true; afterwards the notifications are `AllReadFor` the user |
| Storage.MemStorage.DeleteNotification | server/storage.ts:540-542 | the result says whether the id was stored; only that key is removed |
| Storage.MemStorage.GetTicketStats | server/storage.ts:545-579 | the total is the number of stored tickets; each status and priority count is the number of stored tickets with that status or priority; the resolved count is the number of stored tickets resolved and last updated since midnight; the status counts with all-time resolved and status-less tickets, and the priority counts with priority-less tickets, add up to the total; the average is the fixed "3.2h" |
| Storage.StatusCounts | server/storage.ts:548-563 | each count `getTicketStats` takes by filtering `values()` equals the number of stored tickets with that status, priority, or resolution since midnight |
| Storage.CountMatching | server/storage.ts:548-563 | the number of records `values().filter(p)` lists is the number of stored records that satisfy `p` |
| Storage.StoredSelection | server/storage.ts:443-447 | a filtered and sorted listing of `values()` lists each stored record that passes exactly once, under its own id |
| Storage.MarkEach | server/storage.ts:532-535 | setting each listed notice, read, back under its id marks exactly the listed ids read |
| Storage.MarkAllRead | server/storage.ts:528-535 | marking, one at a time, the unread notices that `values()` lists for the user gives `AllReadFor` the user, and the id discipline is kept |
| Storage.MarkUnreadIsAllRead | server/storage.ts:529-535 | marking only the user's unread notices read is the same as marking all of the user's notices read |
| Storage.AllReadForProperties | server/storage.ts:528-538 | afterwards the user has no unread notice, and the unread listing for them is empty; other users' notices are untouched; doing it again changes nothing |
| Storage.MarkRead | server/storage.ts:523-524 | marking notices read keeps the key order and the key set |
| Storage.AllReadFor | server/storage.ts:528-535 | each of the user's notices is read, every other notice is unchanged, and the keys are kept |
| Storage.DeleteEach | server/storage.ts:428 | deleting each listed record's id one at a time removes exactly the ids of the list, keeping the other records in order |
| Storage.DeleteWhere | server/storage.ts:426-433 | deleting the records `values().filter(p)` lists removes exactly the records that satisfy `p` and keeps the id discipline |
| Storage.FilteredIdsMatching | server/storage.ts:426-428 | the ids `values().filter(p)` lists are exactly the stored keys whose record satisfies `p` |
| Storage.PurgeMatching | server/storage.ts:424-433 | after the deletion no record satisfies `p`, every other record is kept unchanged, and the count falls by the number deleted |
| Storage.CascadeClears | server/storage.ts:424-433 | after the cascade no comment or notification of the ticket is left, every other one is kept unchanged, and the others stay in their order |
| Storage.Purge | server/storage.ts:424-436 | a bulk delete leaves a well-formed table whose contents are the old contents less the deleted keys |
| Storage.InsertAllContents | server/storage.ts:508-517 | the drafts are stored under consecutive ids from the counter, after the existing records, which are kept; nothing else is stored |
| Storage.InsertAllIssued | server/storage.ts:509-515 | inserting drafts with ids from the counter keeps the id discipline, with the counter advanced by the number of drafts |
| Storage.InsertAll | server/storage.ts:508-517 | a run of `createNotification` calls leaves a well-formed table |
| Storage.IssueFresh | server/storage.ts:246-249 | the next counter value is not yet a key, and storing a record under it keeps the id discipline with the counter moved on |
| Storage.IssuedOverwrite | server/storage.ts:257-258 | storing a record back under its own existing id keeps the id discipline |
| Storage.RemoveIssued | server/storage.ts:262-264 | deleting a key keeps the id discipline |
| Storage.PurgeIssued | server/storage.ts:426-433 | deleting any set of keys keeps the id discipline |
| Storage.TicketAdded | server/storage.ts:363-371 | a ticket stamped `now` under the next id keeps the ticket discipline, with the clock at `now` |
| Storage.TicketReplaced | server/storage.ts:392-397 | a stored ticket replaced by one updated at `now` keeps the ticket discipline |
| Storage.TicketRemoved | server/storage.ts:435 | removing a ticket keeps the ticket discipline |
| Storage.ListedUnderOwnId | server/storage.ts:242 | every record `values()` lists is stored under its own id |
| Storage.FilterListing | server/storage.ts:444-445 | `values().filter(p)` lists only stored records, each under its own id, and every stored record that satisfies `p` |
| Storage.ValuesAscending | server/storage.ts:444 | `values()` lists the records of a collection in ascending id order |
| Storage.TicketListing | server/storage.ts:318-344 | `getTickets` lists only stored tickets that meet the filter, and all of them |
| Storage.TicketListingOrder | server/storage.ts:318-344 | `getTickets` lists tickets in ascending id order |
| Storage.DistinctCard | server/storage.ts:569 | the key list is as long as the map has entries, so `tickets.length` is the ticket count |
| Storage.IdsOf | server/storage.ts:428 | the ids of a list of records are exactly the ids of its members |
| Queries.FilterTicketsMatches | server/storage.ts:318-344 | the five conditional filter passes equal one filter by "meets every supplied criterion" |
| Queries.FilterTickets | server/storage.ts:318-344 | the result is no longer than the input, every ticket in it was in the input and meets every supplied criterion, and with no filter it is the input |
| Queries.FirstTwoPasses | server/storage.ts:322-328 | the status and priority passes together are one filter by both criteria |
| Queries.WhenFilter | server/storage.ts:322-340 | one conditional pass over an already filtered list is one filter by the conjunction of the two criteria |
| Queries.FilterTicketsProperties | server/storage.ts:318-344 | the result keeps the input order, holds only matching tickets and every matching ticket; with no filter it is the input |
| Queries.StatusFilterScenario | server/storage.ts:322-324 | a status filter keeps exactly the tickets whose status it lists |
| Queries.WithDetails | server/storage.ts:304-306 | the creator is looked up unconditionally; the assignee and the category are present exactly when their id is truthy and names a stored record |
| Queries.AllWithDetails | server/storage.ts:346-360 | one enriched entry per ticket, in the same order |
| Queries.CommentsOf | server/storage.ts:443-447 | a permutation of the ticket's comments (same multiset as the filter), ordered by creation time, oldest first; the sort being stable, comments listed in ascending id order keep that order when their times are equal |
| Queries.NotificationsOf | server/storage.ts:496-506 | a permutation of the user's notices (only unread ones for the unread variant), ordered by creation time, newest first; notices listed in ascending id order keep that order when their times are equal |
| Queries.FindByUsername | server/storage.ts:235-239 | the first user in list order with the given username, or nothing exactly when no user has it |
| Queries.TicketStats | server/storage.ts:545-579 | the total is the list length; the four status counts, with the all-time resolved count and the tickets without a status, add up to the total; the three priority counts with the tickets without a priority add up to the total; today's resolved count is at most the all-time count; the average response time is the fixed "3.2h" |
| Records.NewUserRecord | server/storage.ts:248 | the stored user is the insert with the new id added and nothing else |
| Records.NewCategoryRecord | server/storage.ts:277 | the stored category is the insert with the new id added |
| Records.NewTicketRecord | server/storage.ts:365-370 | the stored ticket is the insert with the new id and both time stamps set to the creation time |
| Records.NewCommentRecord | server/storage.ts:451-455 | the stored comment is the insert with the new id and the creation time |
| Records.NewNotificationRecord | server/storage.ts:510-514 | the stored notice is the insert with the new id and the creation time |
| Records.MergeUser | server/storage.ts:257 | same id; each supplied field wins and each omitted field is kept |
| Records.MergeCategory | server/storage.ts:286 | same id; each supplied field wins and each omitted field is kept |
| Records.MergeTicket | server/storage.ts:392-396 | same id and creation time, `updatedAt` set to the update time; each supplied field wins and each omitted field is kept |
| Records.EmptyPatchOnlyTouches | server/storage.ts:392-396 | an update that supplies nothing changes only `updatedAt` |
| Records.MergeTicketIdempotent | server/storage.ts:392-396 | applying the same partial update twice is the same as applying it once, apart from the time stamp |
| FanOut.OnCreateTicket | server/storage.ts:373-382 | exactly one unread "info" notice to the assignee about the new ticket when the assignee id is truthy, none otherwise |
| FanOut.OnUpdateTicket | server/storage.ts:399-419 | at most two unread notices about the ticket; none exactly when the update neither reassigns nor resolves; when it reassigns, the first is the "info" notice to the new assignee; when it resolves, the last is the "success" notice to the creator |
| FanOut.UpdateNotices | server/storage.ts:399-419 | at most two notices, unread and about the ticket; one "info" notice exactly when the update names a truthy assignee different from the previous one; one "success" notice exactly when the status becomes resolved from another status; nothing else |
| FanOut.UpdateRecipients | server/storage.ts:399-419 | the "info" notice goes to the supplied assignee and the "success" notice to the creator recorded before the update |
| FanOut.UpdateNoticesIgnoreOtherFields | server/storage.ts:399-419 | only the assignee and status of a patch decide its notices |
| FanOut.ReassignmentScenario | server/storage.ts:400-408 | reassigning to a different user notifies that user once; re-saving the same assignee notifies nobody |
| FanOut.ResolutionScenario | server/storage.ts:411-419 | resolving an unresolved ticket notifies its creator once; re-resolving notifies nobody |
| FanOut.CommentNotices | server/storage.ts:458-482 | no notice for a missing ticket; otherwise 0 to 2 unread "info" notices about the ticket, never to the author: one to the creator unless they are the author, one to a truthy assignee unless they are the author; each user receives exactly the number of notices their two roles owe them |
| FanOut.CommentRecipients | server/storage.ts:458-482 | a user receives one notice as the ticket's creator and one as its truthy assignee, none as the author; so a creator who is also the assignee, and did not write the comment, receives both |
| FanOut.OnComment | server/storage.ts:458-482 | nothing for a missing ticket; otherwise at most two unread "info" notices about the ticket, none of them to the author |
| FanOut.AssigneeCommentScenario | server/storage.ts:472-481 | a comment by the assignee who did not open the ticket notifies only the creator |
| TicketsPage.Lower | client/src/pages/Tickets.tsx:90-92 | lower-casing keeps the length, leaves no upper-case ASCII letter and keeps every other character |
| TicketsPage.LowerIdempotent | client/src/pages/Tickets.tsx:90-92 | lower-casing twice is lower-casing once |
| TicketsPage.IncludesIffOccurs | client/src/pages/Tickets.tsx:91-92 | `includes` holds exactly when the query occurs at some position; the empty string is included in every string |
| TicketsPage.SearchHitIffOccurs | client/src/pages/Tickets.tsx:89-95 | a ticket passes a non-empty search exactly when the lower-cased query occurs in its lower-cased subject or description |
| TicketsPage.SearchIgnoresCase | client/src/pages/Tickets.tsx:89-95 | a query and its lower-cased form select the same tickets |
| TicketsPage.FilteredTicketsProperties | client/src/pages/Tickets.tsx:87-122 | nothing before the tickets arrive; otherwise the result keeps the fetched order, and a ticket is in it exactly when it was fetched and passes search, status, priority, category and assignee |
| TicketsPage.FilteredTickets | client/src/pages/Tickets.tsx:86-122 | nothing before the tickets arrive; otherwise no longer than the fetched list, holding only fetched tickets that pass and every fetched ticket that passes |
| TicketsPage.UnfilteredKeepsAll | client/src/pages/Tickets.tsx:87-122 | with no search text and no filter the list is the fetched list |
| TicketsPage.StatusPriorityScenario | client/src/pages/Tickets.tsx:98-109 | a non-empty status or priority list, on its own, keeps exactly the tickets whose value it lists |
| TicketsPage.SortOrders | client/src/pages/Tickets.tsx:125-139 | the sorted list is a permutation of its input; "oldest" orders by ascending creation time, "priority-high" by descending rank, "priority-low" by ascending rank, and any other option by descending creation time |
| TicketsPage.SortedTickets | client/src/pages/Tickets.tsx:125-139 | a permutation of its input, ascending by the key of the chosen option |
| TicketsPage.SortKeepsTies | client/src/pages/Tickets.tsx:125-139 | the sort is stable: tickets that the chosen order ranks equal keep the order they were fetched in |
| TicketsPage.ShownAreFiltered | client/src/pages/Tickets.tsx:87-139 | each fetched ticket that passes is shown exactly as many times as it was fetched, and no other ticket is shown; with nothing to filter by the page shows the fetched tickets, each as often as fetched |
| Sequences.SortByStable | client/src/pages/Tickets.tsx:125 | sorting keeps the relative order of elements with equal keys |
| Sequences.FilterIsSubsequence | server/storage.ts:323 | a filter keeps a subsequence of its input |
| Sequences.Filter | server/storage.ts:444-445 | `filter` keeps no more elements than its input, only elements of the input that satisfy the predicate, and every one that does |
| Sequences.SortBy | client/src/pages/Tickets.tsx:125 | `sort` by a key yields a permutation of its input in ascending key order |
| Sequences.CountAppend | server/storage.ts:399-419 | counts add up over concatenation, so the notices of an update are counted by type and recipient part by part |
| Sequences.FilterMultiplicity | client/src/pages/Tickets.tsx:86 | a filter keeps each element that passes exactly as often as it occurs, and drops every other one |
| Sequences.FilterIncreasing | server/storage.ts:444-445 | filtering a list in ascending id order leaves a list in ascending id order |
| Sequences.SortByTiesBy | server/storage.ts:446 | sorting a list in ascending id order leaves elements with equal keys in ascending id order |
| Sequences.SortedSelection | server/storage.ts:443-447 | filtering and then sorting lists exactly the elements that pass, with ties in id order when the input was |
| TicketsView.TicketsComponent.constructor | frontend/src/app/features/tickets/tickets.component.ts:38-52 | no user signed in, every filter field null, not loading, no error |
| TicketsView.TicketsComponent.CanEditTicket | frontend/src/app/features/tickets/tickets.component.ts:147-165 | nobody signed in, or a role other than ADMIN, AGENT or USER, may edit nothing; an admin may edit everything; an agent exactly the tickets assigned to them or unassigned; a user exactly their own tickets that are neither closed nor resolved |
| TicketsView.TicketsComponent.EditLocks | frontend/src/app/features/tickets/tickets.component.ts:147-165 | only an admin or an agent may edit a closed or resolved ticket; only an admin or its creator may edit a ticket assigned to someone else |
| TicketsView.TicketsComponent.GetPriorityClass | frontend/src/app/features/tickets/tickets.component.ts:167-174 | each known priority gets its badge class; the result is empty exactly for an unknown priority |
| TicketsView.TicketsComponent.GetStatusClass | frontend/src/app/features/tickets/tickets.component.ts:176-184 | each known status gets its badge class; the result is empty exactly for an unknown status |
| TicketsView.TicketsComponent.ActiveFilters | frontend/src/app/features/tickets/tickets.component.ts:98-104 | the loop over `Object.entries(filters)` keeps, in order, exactly the entries whose value is not null |
| TicketsView.TicketsComponent.LoadTickets | frontend/src/app/features/tickets/tickets.component.ts:93-106 | loading is set, the error is cleared, and the request carries exactly the non-null filter entries |
| TicketsView.TicketsComponent.ResetFilters | frontend/src/app/features/tickets/tickets.component.ts:123-133 | every filter field becomes null, and the reload sends an empty filter object |
| TicketsView.NonNullMembers | frontend/src/app/features/tickets/tickets.component.ts:100-104 | an entry is kept exactly when its value is not null |
| TicketsView.NonNullOfNulls | frontend/src/app/features/tickets/tickets.component.ts:123-133 | entries that are all null yield nothing |
| TicketsView.ActiveListFields | frontend/src/app/features/tickets/tickets.component.ts:98-104 | the status, priority and search-term keys are sent exactly when the field is not null, with the field's value; cleared filters send nothing |
| TicketsView.ActiveIdFields | frontend/src/app/features/tickets/tickets.component.ts:98-104 | the category, assignee and creator keys are sent exactly when the field is not null, with the field's value; no key outside the six field names is ever sent |

## Left out

- The HTTP routes, request validation, sessions and authentication (`server/routes.ts`) are not modelled. The store is modelled on its own.
- `seedData` (server/storage.ts:84-228) is left out. The constructor yields the empty store with every counter at 1, which the source builds before seeding.
- The wall clock (`new Date()`) becomes a `now` parameter. An operation that reads the clock more than once is given one reading for all the stamps it writes: `createTicket` stamps the ticket (server/storage.ts:364) and its notice (513), `updateTicket` the ticket (395) and its notices (513), and `createComment` the comment (454) and its notices (513). The source may give these stamps different times a few milliseconds apart; the model gives them all `now`. The local midnight used by `getTicketStats` (`setHours(0, 0, 0, 0)`) becomes the `startOfToday` parameter. Time stamps are integers, and the Tickets page's `new Date(...).getTime()` is that integer.
- Notification texts are a `Message` datatype with one constructor per template. String interpolation of ids and subjects is not modelled.
- `createUser` computes an unused `createdAt`. It has no effect and is not modelled.
- The database defaults of `shared/schema.ts` (status "open" and priority "medium" at lines 36-37, role "user" at line 12) are not applied: `MemStorage` stores the insert as given, so a ticket or user created without those fields has none. The model carries them as `Option` values, `None` when omitted. Notification `type` and `read` (lines 69 and 71) are supplied by every `createNotification` call outside `seedData`. The three seeded notifications (server/storage.ts:207-226) omit `read`, which the store's `!notification.read` tests treat as unread; the model has no seeded records, and its `read` field is always a boolean.
- TicketsPage.Rank: a ticket without a priority is ranked 0, below "low". In the source its comparator returns `NaN`, which `sort` treats as equal to everything; the comparator is then inconsistent and the order the source yields is not defined. The model states the order only for its own ranking.
- Partial updates are typed patches. A ticket patch cannot carry `id`, `createdAt` or `updatedAt`, a user or category patch cannot carry `id`, and unknown extra keys are not modelled.
- Storage.MemStorage.UpdateTicket: requires `now` to be no earlier than the last time stamp written, so that `updatedAt` never precedes `createdAt`. The source reads the clock and does not check this.
- Storage.MemStorage.CreateTicket: requires the same monotone clock as UpdateTicket.
- Each `MemStorage` method requires only the validity of the collections it reads or changes, not of the whole store.
- In-place mutation of a shared record (`notification.read = true` on the stored object) is modelled as storing an updated copy under the same id. Object identity and aliasing of the returned arrays are not modelled.
- Storage.MemStorage.Notify: the store's inline `if ... createNotification(...)` blocks are modelled as a list of drafts from `FanOut`, inserted in order by one loop.
- `async`/`Promise` are not modelled. Every store operation is synchronous.
- The Angular `loadTickets` request to the ticket service, its asynchronous response (setting `tickets` and clearing `loading`) and its error message are left out. The model stops at the filter object sent.
- Lower-casing covers the ASCII letters only. Unicode case mapping is not modelled.
- The Java backend (`backend/`), the dashboard, reports, detail and form pages, and the other client components are not modelled.
