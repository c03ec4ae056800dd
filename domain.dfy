/** The records the ticketing server keeps (users, categories, tickets, comments,
    notifications), the partial updates it accepts and the ticket filter it answers. */
module Domain {

  datatype Option<+T> = None | Some(value: T)

  /** A JavaScript `if (x)` on an optional numeric id: absent, null and 0 are falsy. */
  predicate Truthy(x: Option<int>) {
    x.Some? && x.value != 0
  }

  datatype Role = Admin | Agent | Member

  datatype Status = Open | InProgress | Resolved | Closed

  datatype Priority = Low | Medium | High

  datatype NoticeType = Info | Warning | Success | Error

  /** The text of a notification. The store builds it from one of five templates; a
      notification created directly carries whatever text its caller gave. */
  datatype Message =
    | AssignedOnCreate(subject: string)   // "New ticket assigned to you: <subject>"
    | AssignedOnUpdate(ticket: int)       // "Ticket #<id> has been assigned to you"
    | ResolvedNotice(ticket: int)         // "Ticket #<id> has been resolved"
    | CommentOnYours(subject: string)     // "New comment on your ticket: <subject>"
    | CommentOnAssigned(ticket: int)      // "New comment on ticket #<id>"
    | Text(text: string)

  /** The insert schema derived from the table leaves out-of-band defaults to the
      database, so a record created through the store can lack a role, a status or a
      priority: those fields are optional here. */
  datatype User = User(
    id: int, username: string, password: string, name: string, email: string,
    role: Option<Role>, avatar: Option<string>)

  datatype Category = Category(id: int, name: string, description: Option<string>)

  datatype Ticket = Ticket(
    id: int, subject: string, description: string, status: Option<Status>, priority: Option<Priority>,
    categoryId: Option<int>, createdById: int, assignedToId: Option<int>,
    createdAt: int, updatedAt: int)

  datatype Comment = Comment(id: int, content: string, ticketId: int, userId: int, createdAt: int)

  datatype Notification = Notification(
    id: int, message: Message, kind: NoticeType, userId: int, read: bool,
    ticketId: Option<int>, createdAt: int)

  function UserId(u: User): int { u.id }
  function CategoryId(c: Category): int { c.id }
  function TicketId(t: Ticket): int { t.id }
  function CommentId(c: Comment): int { c.id }
  function NotificationId(n: Notification): int { n.id }

  /** The fields a caller supplies to create a record; the store adds id and timestamps. */
  datatype NewUser = NewUser(
    username: string, password: string, name: string, email: string,
    role: Option<Role>, avatar: Option<string>)

  datatype NewCategory = NewCategory(name: string, description: Option<string>)

  datatype NewTicket = NewTicket(
    subject: string, description: string, status: Option<Status>, priority: Option<Priority>,
    categoryId: Option<int>, createdById: int, assignedToId: Option<int>)

  datatype NewComment = NewComment(content: string, ticketId: int, userId: int)

  /** A notification before it is stored: everything but id and creation time. */
  datatype Draft = Draft(message: Message, kind: NoticeType, userId: int, read: bool, ticketId: Option<int>)

  /** Partial updates: `None` leaves a field alone; for an optional field, `Some(None)`
      stores null. */
  datatype UserPatch = UserPatch(
    username: Option<string>, password: Option<string>, name: Option<string>,
    email: Option<string>, role: Option<Option<Role>>, avatar: Option<Option<string>>)

  datatype CategoryPatch = CategoryPatch(name: Option<string>, description: Option<Option<string>>)

  datatype TicketPatch = TicketPatch(
    subject: Option<string>, description: Option<string>, status: Option<Option<Status>>,
    priority: Option<Option<Priority>>, categoryId: Option<Option<int>>, createdById: Option<int>,
    assignedToId: Option<Option<int>>)

  /** The ticket filter: an empty status or priority list stands for an absent one. */
  datatype TicketFilters = TicketFilters(
    status: seq<Status>, priority: seq<Priority>,
    categoryId: Option<int>, assignedToId: Option<int>, createdById: Option<int>)

  const NoFilters := TicketFilters([], [], None, None, None)

  /** `xs.includes(x)` for an optional field: an absent value is in no list of values. */
  predicate IncludedIn<T(==)>(x: Option<T>, xs: seq<T>) {
    x.Some? && x.value in xs
  }

  function Pick<T>(supplied: Option<T>, current: T): (r: T)
    ensures supplied.Some? ==> r == supplied.value
    ensures supplied.None? ==> r == current
  {
    if supplied.Some? then supplied.value else current
  }
}
