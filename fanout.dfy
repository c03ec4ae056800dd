/** Which notifications a ticket creation, a ticket update or a new comment produces.
    Each function returns the notifications in the order the store inserts them. */
module FanOut {
  import opened Domain
  import opened Sequences
  import opened Records

  /** Every notice the store derives is unread and linked to the ticket. */
  ghost predicate UnreadAbout(ds: seq<Draft>, ticket: int) {
    forall i | 0 <= i < |ds| :: !ds[i].read && ds[i].ticketId == Some(ticket)
  }

  /** On ticket creation: one unread "info" notice for the assignee, if there is one. */
  function OnCreateTicket(t: Ticket): (ds: seq<Draft>)
    ensures |ds| == (if Truthy(t.assignedToId) then 1 else 0)
    ensures forall i | 0 <= i < |ds| ::
      ds[i] == Draft(AssignedOnCreate(t.subject), Info, t.assignedToId.value, false, Some(t.id))
  {
    if Truthy(t.assignedToId) then
      [Draft(AssignedOnCreate(t.subject), Info, t.assignedToId.value, false, Some(t.id))]
    else []
  }

  /** The update names an assignee (a truthy id) other than the previous one. */
  predicate Reassigns(before: Ticket, p: TicketPatch) {
    p.assignedToId.Some? && Truthy(p.assignedToId.value) && p.assignedToId.value != before.assignedToId
  }

  /** The update sets the status to resolved and the ticket was not resolved before
      (a ticket without a status is not resolved). */
  predicate Resolves(before: Ticket, p: TicketPatch) {
    p.status == Some(Some(Resolved)) && before.status != Some(Resolved)
  }

  /** On ticket update: an "info" notice to the new assignee, then a "success" notice to
      the creator recorded before the update. */
  function OnUpdateTicket(before: Ticket, p: TicketPatch): (ds: seq<Draft>)
    ensures |ds| <= 2 && UnreadAbout(ds, before.id)
    ensures ds == [] <==> !Reassigns(before, p) && !Resolves(before, p)
    ensures Reassigns(before, p) ==> ds[0] == Draft(AssignedOnUpdate(before.id), Info, p.assignedToId.value.value, false, Some(before.id))
    ensures Resolves(before, p) ==> ds[|ds| - 1] == Draft(ResolvedNotice(before.id), Success, before.createdById, false, Some(before.id))
  {
    (if Reassigns(before, p)
     then [Draft(AssignedOnUpdate(before.id), Info, p.assignedToId.value.value, false, Some(before.id))]
     else [])
    +
    (if Resolves(before, p)
     then [Draft(ResolvedNotice(before.id), Success, before.createdById, false, Some(before.id))]
     else [])
  }

  /** On a new comment: the ticket's creator unless they wrote it, then its assignee if
      there is one and they did not write it; nothing when the ticket does not exist. */
  function OnComment(ticket: Option<Ticket>, author: int): (ds: seq<Draft>)
    ensures |ds| <= 2
    ensures ticket.None? ==> ds == []
    ensures ticket.Some? ==> UnreadAbout(ds, ticket.value.id)
    ensures forall i | 0 <= i < |ds| :: ds[i].kind == Info && ds[i].userId != author
  {
    if ticket.None? then []
    else
      var t := ticket.value;
      (if t.createdById != author
       then [Draft(CommentOnYours(t.subject), Info, t.createdById, false, Some(t.id))]
       else [])
      +
      (if Truthy(t.assignedToId) && t.assignedToId.value != author
       then [Draft(CommentOnAssigned(t.id), Info, t.assignedToId.value, false, Some(t.id))]
       else [])
  }

  /** The notice is of type `k`. */
  function KindIs(k: NoticeType): Draft -> bool {
    (d: Draft) => d.kind == k
  }

  /** The notice goes to `user`. */
  function SentTo(user: int): Draft -> bool {
    (d: Draft) => d.userId == user
  }

  /** An update yields at most two notices: exactly one "info" notice when it reassigns
      and exactly one "success" notice when it resolves; the two checks are independent. */
  lemma {:induction false} UpdateNotices(before: Ticket, p: TicketPatch)
    ensures var ds := OnUpdateTicket(before, p);
      && |ds| <= 2
      && UnreadAbout(ds, before.id)
      && Count(KindIs(Info), ds) == (if Reassigns(before, p) then 1 else 0)
      && Count(KindIs(Success), ds) == (if Resolves(before, p) then 1 else 0)
      && |ds| == Count(KindIs(Info), ds) + Count(KindIs(Success), ds)
  {
    var a := if Reassigns(before, p)
      then [Draft(AssignedOnUpdate(before.id), Info, p.assignedToId.value.value, false, Some(before.id))]
      else [];
    var b := if Resolves(before, p)
      then [Draft(ResolvedNotice(before.id), Success, before.createdById, false, Some(before.id))]
      else [];
    assert OnUpdateTicket(before, p) == a + b;
    CountAppend(KindIs(Info), a, b);
    CountAppend(KindIs(Success), a, b);
  }

  /** The "info" notice of an update goes to the supplied assignee, the "success" notice
      to the creator recorded before the update. */
  lemma {:induction false} UpdateRecipients(before: Ticket, p: TicketPatch)
    ensures var ds := OnUpdateTicket(before, p);
      && (forall i | 0 <= i < |ds| && ds[i].kind == Info :: ds[i].userId == p.assignedToId.value.value)
      && (forall i | 0 <= i < |ds| && ds[i].kind == Success :: ds[i].userId == before.createdById)
  {
  }

  /** Only the assignee and the status of an update decide its notices: changing the
      subject, description, priority, category or creator notifies nobody. */
  lemma {:induction false} UpdateNoticesIgnoreOtherFields(before: Ticket, p: TicketPatch, q: TicketPatch)
    requires p.assignedToId == q.assignedToId && p.status == q.status
    ensures OnUpdateTicket(before, p) == OnUpdateTicket(before, q)
  {
  }

  /** Reassigning a ticket from one user to another notifies the new assignee once;
      re-saving the same assignee notifies nobody. */
  lemma {:induction false} ReassignmentScenario(before: Ticket, p: TicketPatch, from: int, to: int)
    requires before.assignedToId == Some(from) && p.assignedToId == Some(Some(to))
    requires p.status.None?
    ensures from == to ==> OnUpdateTicket(before, p) == []
    ensures from != to && to != 0 ==>
      OnUpdateTicket(before, p) == [Draft(AssignedOnUpdate(before.id), Info, to, false, Some(before.id))]
  {
  }

  /** Moving a ticket into "resolved" notifies its creator once; re-saving a resolved
      ticket as resolved notifies nobody. */
  lemma {:induction false} ResolutionScenario(before: Ticket, p: TicketPatch)
    requires p.status == Some(Some(Resolved)) && p.assignedToId.None?
    ensures before.status == Some(Resolved) ==> OnUpdateTicket(before, p) == []
    ensures before.status != Some(Resolved) ==>
      OnUpdateTicket(before, p) == [Draft(ResolvedNotice(before.id), Success, before.createdById, false, Some(before.id))]
  {
  }

  /** A comment yields 0 to 2 "info" notices about the ticket and never one to its
      author: one to the creator when they are not the author, one to the assignee when
      there is one and they are not the author (an assignee who is also the creator gets
      both): each user receives exactly as many notices as those two roles give them. */
  lemma {:induction false} CommentNotices(ticket: Option<Ticket>, author: int)
    ensures var ds := OnComment(ticket, author);
      && |ds| <= 2
      && Count(KindIs(Info), ds) == |ds|
      && Count(SentTo(author), ds) == 0
      && (ticket.None? ==> ds == [])
      && (ticket.Some? ==> UnreadAbout(ds, ticket.value.id))
      && (ticket.Some? && ticket.value.createdById != author ==> Count(SentTo(ticket.value.createdById), ds) >= 1)
      && (ticket.Some? && Truthy(ticket.value.assignedToId) && ticket.value.assignedToId.value != author ==>
            Count(SentTo(ticket.value.assignedToId.value), ds) >= 1)
      && (ticket.Some? ==>
            |ds| == (if ticket.value.createdById != author then 1 else 0)
                    + (if Truthy(ticket.value.assignedToId) && ticket.value.assignedToId.value != author then 1 else 0))
    ensures ticket.Some? ==> forall u :: Count(SentTo(u), OnComment(ticket, author)) == CommentShare(ticket.value, author, u)
  {
    var ds := OnComment(ticket, author);
    if ticket.Some? {
      var t := ticket.value;
      var a := if t.createdById != author
        then [Draft(CommentOnYours(t.subject), Info, t.createdById, false, Some(t.id))] else [];
      var b := if Truthy(t.assignedToId) && t.assignedToId.value != author
        then [Draft(CommentOnAssigned(t.id), Info, t.assignedToId.value, false, Some(t.id))] else [];
      assert ds == a + b;
      CountAppend(KindIs(Info), a, b);
      CountAppend(SentTo(author), a, b);
      CountAppend(SentTo(t.createdById), a, b);
      if Truthy(t.assignedToId) {
        CountAppend(SentTo(t.assignedToId.value), a, b);
      }
      forall u ensures Count(SentTo(u), ds) == CommentShare(t, author, u) {
        CommentRecipients(t, author, u);
      }
    }
  }

  /** How many notices a comment by `author` on `t` owes user `u`: one as the creator,
      one as the assignee, none as the author. */
  function CommentShare(t: Ticket, author: int, u: int): nat {
    (if t.createdById == u && u != author then 1 else 0)
    + (if Truthy(t.assignedToId) && t.assignedToId.value == u && u != author then 1 else 0)
  }

  /** Each user receives exactly the notices their roles on the ticket owe them, so a
      creator who is also the assignee, and not the author, receives both. */
  lemma {:induction false} CommentRecipients(t: Ticket, author: int, u: int)
    ensures Count(SentTo(u), OnComment(Some(t), author)) == CommentShare(t, author, u)
  {
    var a := if t.createdById != author
      then [Draft(CommentOnYours(t.subject), Info, t.createdById, false, Some(t.id))] else [];
    var b := if Truthy(t.assignedToId) && t.assignedToId.value != author
      then [Draft(CommentOnAssigned(t.id), Info, t.assignedToId.value, false, Some(t.id))] else [];
    assert OnComment(Some(t), author) == a + b;
    CountAppend(SentTo(u), a, b);
  }

  /** A comment by the assignee (who did not open the ticket) notifies only the creator. */
  lemma {:induction false} AssigneeCommentScenario(t: Ticket, author: int)
    requires t.assignedToId == Some(author) && author != 0 && t.createdById != author
    ensures OnComment(Some(t), author) == [Draft(CommentOnYours(t.subject), Info, t.createdById, false, Some(t.id))]
  {
  }
}
