/** Building stored records: `{ ...insert, id }` on create and `{ ...old, ...partial }`
    on update. */
module Records {
  import opened Domain

  function NewUserRecord(id: int, u: NewUser): (r: User)
    ensures r.id == id
    ensures NewUser(r.username, r.password, r.name, r.email, r.role, r.avatar) == u
  {
    User(id, u.username, u.password, u.name, u.email, u.role, u.avatar)
  }

  function NewCategoryRecord(id: int, c: NewCategory): (r: Category)
    ensures r.id == id && NewCategory(r.name, r.description) == c
  {
    Category(id, c.name, c.description)
  }

  /** A ticket as created: both timestamps are the creation time. A status or priority
      the insert leaves out stays absent; the table's defaults are not applied. */
  function NewTicketRecord(id: int, t: NewTicket, now: int): (r: Ticket)
    ensures r.id == id && r.createdAt == now && r.updatedAt == now
    ensures NewTicket(r.subject, r.description, r.status, r.priority, r.categoryId,
                      r.createdById, r.assignedToId) == t
  {
    Ticket(id, t.subject, t.description, t.status, t.priority, t.categoryId,
           t.createdById, t.assignedToId, now, now)
  }

  function NewCommentRecord(id: int, c: NewComment, now: int): (r: Comment)
    ensures r.id == id && r.createdAt == now && NewComment(r.content, r.ticketId, r.userId) == c
  {
    Comment(id, c.content, c.ticketId, c.userId, now)
  }

  function NewNotificationRecord(id: int, d: Draft, now: int): (r: Notification)
    ensures r.id == id && r.createdAt == now
    ensures Draft(r.message, r.kind, r.userId, r.read, r.ticketId) == d
  {
    Notification(id, d.message, d.kind, d.userId, d.read, d.ticketId, now)
  }

  /** `{ ...user, ...patch }`: same id; a supplied field wins, an omitted one is kept. */
  function MergeUser(u: User, p: UserPatch): (r: User)
    ensures r.id == u.id
    ensures r.username == (if p.username.Some? then p.username.value else u.username)
    ensures r.password == (if p.password.Some? then p.password.value else u.password)
    ensures r.name == (if p.name.Some? then p.name.value else u.name)
    ensures r.email == (if p.email.Some? then p.email.value else u.email)
    ensures r.role == (if p.role.Some? then p.role.value else u.role)
    ensures r.avatar == (if p.avatar.Some? then p.avatar.value else u.avatar)
  {
    User(u.id, Pick(p.username, u.username), Pick(p.password, u.password), Pick(p.name, u.name),
         Pick(p.email, u.email), Pick(p.role, u.role), Pick(p.avatar, u.avatar))
  }

  /** `{ ...category, ...patch }`. */
  function MergeCategory(c: Category, p: CategoryPatch): (r: Category)
    ensures r.id == c.id
    ensures r.name == (if p.name.Some? then p.name.value else c.name)
    ensures r.description == (if p.description.Some? then p.description.value else c.description)
  {
    Category(c.id, Pick(p.name, c.name), Pick(p.description, c.description))
  }

  /** `{ ...ticket, ...patch, updatedAt: now }`: same id and creation time, a fresh
      `updatedAt`, each supplied field stored and each omitted field kept. */
  function MergeTicket(t: Ticket, p: TicketPatch, now: int): (r: Ticket)
    ensures r.id == t.id && r.createdAt == t.createdAt && r.updatedAt == now
    ensures r.subject == (if p.subject.Some? then p.subject.value else t.subject)
    ensures r.description == (if p.description.Some? then p.description.value else t.description)
    ensures r.status == (if p.status.Some? then p.status.value else t.status)
    ensures r.priority == (if p.priority.Some? then p.priority.value else t.priority)
    ensures r.categoryId == (if p.categoryId.Some? then p.categoryId.value else t.categoryId)
    ensures r.createdById == (if p.createdById.Some? then p.createdById.value else t.createdById)
    ensures r.assignedToId == (if p.assignedToId.Some? then p.assignedToId.value else t.assignedToId)
  {
    Ticket(t.id, Pick(p.subject, t.subject), Pick(p.description, t.description),
           Pick(p.status, t.status), Pick(p.priority, t.priority), Pick(p.categoryId, t.categoryId),
           Pick(p.createdById, t.createdById), Pick(p.assignedToId, t.assignedToId),
           t.createdAt, now)
  }

  const EmptyTicketPatch := TicketPatch(None, None, None, None, None, None, None)

  /** An update that supplies nothing only refreshes `updatedAt`. */
  lemma {:induction false} EmptyPatchOnlyTouches(t: Ticket, now: int)
    ensures MergeTicket(t, EmptyTicketPatch, now) == t.(updatedAt := now)
  {
  }

  /** Applying the same partial update twice is applying it once (apart from the time). */
  lemma {:induction false} MergeTicketIdempotent(t: Ticket, p: TicketPatch, now1: int, now2: int)
    ensures MergeTicket(MergeTicket(t, p, now1), p, now2) == MergeTicket(t, p, now2)
  {
  }
}
