/** The records of the helpdesk: tickets with their replies, projects, and the status,
    priority and channel enumerations. Timestamps are milliseconds since the epoch. */
module Types {
  import opened Wrappers

  /** The status stored on a ticket. */
  datatype TicketStatus = New | Pending | OnHold | Closed | Active | Terminated {
    /** The status as it is written in documents and routes. */
    function Name(): string
    {
      match this
      case New => "new"
      case Pending => "pending"
      case OnHold => "on-hold"
      case Closed => "closed"
      case Active => "active"
      case Terminated => "terminated"
    }
  }

  /** A status segment of a ticket list route: one status or every ticket. */
  datatype TicketStatusFilter = AllTickets | TicketsWith(status: TicketStatus)

  /** The status stored on a project. */
  datatype ProjectStatus = New | Active | OnHold | Completed {
    function Name(): string
    {
      match this
      case New => "new"
      case Active => "active"
      case OnHold => "on-hold"
      case Completed => "completed"
    }
  }

  /** A status segment of a project list route: one status or every project. */
  datatype ProjectStatusKey = AllProjects | ProjectsWith(status: ProjectStatus)

  datatype Priority = Low | Medium | High | Urgent

  datatype Channel = Email | Sms | SocialMedia | WebForm | Manual

  /** One message of a ticket's conversation; its time is an ISO date string. */
  datatype Reply = Reply(id: string, userId: string, userName: string, content: string, createdAt: string)

  /** A ticket. `replies`, when present, is the JSON text of a list of replies. */
  datatype Ticket = Ticket(
    id: string,
    title: string,
    description: string,
    customerName: string,
    customerEmail: string,
    createdAt: int,
    updatedAt: int,
    status: TicketStatus,
    tags: seq<string>,
    assignedTo: Option<string>,
    priority: Priority,
    channel: Channel,
    replies: Option<string>,
    userId: string)

  /** The fields a caller supplies when a ticket is created: all but the id and the timestamps. */
  datatype TicketInput = TicketInput(
    title: string,
    description: string,
    customerName: string,
    customerEmail: string,
    status: TicketStatus,
    tags: seq<string>,
    assignedTo: Option<string>,
    priority: Priority,
    channel: Channel,
    replies: Option<string>,
    userId: string)

  /** A partial ticket: the fields an update sets, `None` where the field is left out.
      The representation of `replies` is a parameter, since the ticket view accepts a list
      of replies where the store takes JSON text. */
  datatype TicketPatch<R> = TicketPatch(
    title: Option<string>,
    description: Option<string>,
    customerName: Option<string>,
    customerEmail: Option<string>,
    updatedAt: Option<int>,
    status: Option<TicketStatus>,
    tags: Option<seq<string>>,
    assignedTo: Option<string>,
    priority: Option<Priority>,
    channel: Option<Channel>,
    replies: Option<R>,
    userId: Option<string>)

  /** A patch that sets nothing. */
  function EmptyPatch<R>(): TicketPatch<R>
  {
    TicketPatch(None, None, None, None, None, None, None, None, None, None, None, None)
  }

  /** A project; a missing or null deadline is `None`. */
  datatype Project = Project(
    id: string,
    name: string,
    description: string,
    status: ProjectStatus,
    createdAt: int,
    updatedAt: int,
    deadline: Option<int>,
    teamMembers: Option<seq<string>>)
}
