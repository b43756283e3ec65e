/** The data layer: the mock project table read by status and by id, the ticket create that
    fills defaults, the merge-style ticket update, and the ticket queries, which are stubs
    that find nothing. The clock is a parameter: `now` is the time in milliseconds. */
module Data {
  import opened Wrappers
  import opened Types
  import opened Seqs
  import Text
  import ReplyCodec

  // ---------------------------------------------------------------- projects

  /** The fixed project table, with its ISO dates as milliseconds since the epoch. */
  function MockProjects(): seq<Project>
  {
    [ Project("PROJ-001", "Website Redesign Q3",
        "Complete redesign of the company website with new branding and improved UX.",
        ProjectStatus.Active, 1709251200000, 1714521600000, Some(1727654400000),
        Some(["Alice Wonderland", "Bob The Builder"])),
      Project("PROJ-002", "Mobile App v2.0 Launch",
        "Develop and launch version 2.0 of the mobile application with new features.",
        ProjectStatus.OnHold, 1705276800000, 1712707200000, Some(1722384000000),
        Some(["Charlie Chaplin"])),
      Project("PROJ-003", "Knowledge Base Setup",
        "Create and populate a new knowledge base for customer self-service.",
        ProjectStatus.Completed, 1698796800000, 1709078400000, None,
        Some(["Alice Wonderland"])),
      Project("PROJ-004", "New API Endpoint Development",
        "Develop new API endpoints for partner integrations.",
        ProjectStatus.New, 1714521600000, 1714521600000, Some(1719705600000),
        Some(["Bob The Builder", "Charlie Chaplin"])) ]
  }

  /** The projects of `projects` a status key selects: all of them, or those with the status. */
  function SelectProjects(projects: seq<Project>, key: ProjectStatusKey): seq<Project>
  {
    match key
    case AllProjects => projects
    case ProjectsWith(s) => Filter((p: Project) => p.status == s, projects)
  }

  /** `getProjectsByStatus`: the mock table for "all", otherwise exactly its projects with
      the status, in table order. */
  function GetProjectsByStatus(key: ProjectStatusKey): (r: seq<Project>)
    ensures key == AllProjects ==> r == MockProjects()
    ensures key.ProjectsWith? ==> IsSubsequence(r, MockProjects())
    ensures key.ProjectsWith? ==> forall p :: p in r <==> p in MockProjects() && p.status == key.status
    ensures key.ProjectsWith? ==> |r| == Count((p: Project) => p.status == key.status, MockProjects())
  {
    SelectProjectsSpec(MockProjects(), key);
    SelectProjects(MockProjects(), key)
  }

  /** The "all" key returns the table unchanged; a status returns, in table order, exactly
      the projects with that status. */
  lemma SelectProjectsSpec(projects: seq<Project>, key: ProjectStatusKey)
    ensures key == AllProjects ==> SelectProjects(projects, key) == projects
    ensures key.ProjectsWith? ==>
      var r := SelectProjects(projects, key);
      && IsSubsequence(r, projects)
      && (forall p :: p in r <==> p in projects && p.status == key.status)
      && |r| == Count((p: Project) => p.status == key.status, projects)
  {
    if key.ProjectsWith? {
      FilterSpec((p: Project) => p.status == key.status, projects);
    }
  }

  /** The first project with the id, `None` when there is none (`Array.prototype.find`). */
  function FindProject(projects: seq<Project>, id: string): (r: Option<Project>)
    ensures r.None? <==> forall i :: 0 <= i < |projects| ==> projects[i].id != id
    ensures r.Some? ==> r.value.id == id && exists k :: FirstWithId(projects, k, id) && projects[k] == r.value
  {
    if projects == [] then None
    else if projects[0].id == id then Some(projects[0])
    else
      var r := FindProject(projects[1..], id);
      assert r.Some? ==> exists k :: FirstWithId(projects, k, id) && projects[k] == r.value by {
        if r.Some? {
          var k :| FirstWithId(projects[1..], k, id) && projects[1..][k] == r.value;
          assert FirstWithId(projects, k + 1, id);
        }
      }
      r
  }

  /** `projects[k]` is the first project with the id. */
  predicate FirstWithId(projects: seq<Project>, k: int, id: string)
  {
    0 <= k < |projects| && projects[k].id == id && forall i :: 0 <= i < k ==> projects[i].id != id
  }

  /** `getProjectById`: `None` exactly when no mock project has the id, otherwise a mock
      project with that id. */
  function GetProjectById(id: string): (r: Option<Project>)
    ensures r.None? <==> forall i :: 0 <= i < |MockProjects()| ==> MockProjects()[i].id != id
    ensures r.Some? ==> r.value.id == id && r.value in MockProjects()
  {
    FindProject(MockProjects(), id)
  }

  /** No two projects of `projects` share an id. */
  predicate UniqueIds(projects: seq<Project>)
  {
    forall i, j :: 0 <= i < j < |projects| ==> projects[i].id != projects[j].id
  }

  /** Where ids are unique, the lookup finds every project by its own id. */
  lemma FindProjectUnique(projects: seq<Project>, i: int)
    requires UniqueIds(projects) && 0 <= i < |projects|
    ensures FindProject(projects, projects[i].id) == Some(projects[i])
  {
    var r := FindProject(projects, projects[i].id);
    var k :| FirstWithId(projects, k, projects[i].id) && projects[k] == r.value;
  }

  /** Every mock project is found by its own id. */
  lemma GetProjectByIdFindsEach(i: nat)
    requires i < |MockProjects()|
    ensures GetProjectById(MockProjects()[i].id) == Some(MockProjects()[i])
  {
    MockProjectIdsUnique();
    FindProjectUnique(MockProjects(), i);
  }

  /** The ids of the mock table are unique. */
  lemma MockProjectIdsUnique()
    ensures UniqueIds(MockProjects())
  {
    var ps := MockProjects();
    assert ps[0].id[7] == '1' && ps[1].id[7] == '2' && ps[2].id[7] == '3' && ps[3].id[7] == '4';
  }

  // ---------------------------------------------------------------- tickets

  /** The prefix of the ids `createTicket` generates. */
  const MockIdPrefix: string := "mock-"

  /** `createTicket`: the supplied fields, an id made from the clock, both timestamps set to
      the clock, and an absent or empty reply text replaced by the empty list's JSON. */
  function CreateTicket(input: TicketInput, now: nat): (r: Ticket)
    ensures r.id == MockIdPrefix + Text.NatToString(now)
    ensures r.createdAt == now && r.updatedAt == now
    ensures r.title == input.title && r.description == input.description
    ensures r.customerName == input.customerName && r.customerEmail == input.customerEmail
    ensures r.status == input.status && r.tags == input.tags && r.assignedTo == input.assignedTo
    ensures r.priority == input.priority && r.channel == input.channel && r.userId == input.userId
    ensures input.replies.Some? && input.replies.value != "" ==> r.replies == input.replies
    ensures input.replies.None? || input.replies == Some("") ==> r.replies.Some? && ReplyCodec.Parse(r.replies.value) == Some([])
  {
    var replies := if input.replies.Some? && input.replies.value != "" then input.replies
      else Some(ReplyCodec.Serialize([]));
    Ticket(MockIdPrefix + Text.NatToString(now), input.title, input.description, input.customerName,
      input.customerEmail, now, now, input.status, input.tags, input.assignedTo, input.priority,
      input.channel, replies, input.userId)
  }

  /** A created ticket always carries a non-empty reply text, and its id reads back as the
      clock it was made from. */
  lemma CreateTicketIdAndReplies(input: TicketInput, now: nat)
    ensures CreateTicket(input, now).replies.Some? && CreateTicket(input, now).replies.value != ""
    ensures var id := CreateTicket(input, now).id;
      id[..|MockIdPrefix|] == MockIdPrefix && Text.DigitsValue(id[|MockIdPrefix|..]) == now
  {
    var id := CreateTicket(input, now).id;
    assert id[|MockIdPrefix|..] == Text.NatToString(now);
    Text.NatToStringValue(now);
  }

  /** `getTicketsByStatus`: the stub finds no ticket. */
  function GetTicketsByStatus(filter: TicketStatusFilter): (r: seq<Ticket>)
    ensures r == []
  {
    []
  }

  /** `getTicketById`: the stub finds no ticket. */
  function GetTicketById(id: string): (r: Option<Ticket>)
    ensures r == None
  {
    None
  }

  /** `getNewTicketsTodayCount`: the stub counts none. */
  function GetNewTicketsTodayCount(): (r: nat)
    ensures r == 0
  {
    0
  }

  /** `{ ...current, ...fields, updatedAt: now }`: the fields the patch sets override, the
      others, the id and the creation time are kept, and the update time is the clock. */
  function Merge(t: Ticket, patch: TicketPatch<string>, now: int): (r: Ticket)
    ensures r.id == t.id && r.createdAt == t.createdAt && r.updatedAt == now
    ensures r.title == patch.title.GetOr(t.title)
    ensures r.description == patch.description.GetOr(t.description)
    ensures r.customerName == patch.customerName.GetOr(t.customerName)
    ensures r.customerEmail == patch.customerEmail.GetOr(t.customerEmail)
    ensures r.status == patch.status.GetOr(t.status)
    ensures r.tags == patch.tags.GetOr(t.tags)
    ensures r.assignedTo == (if patch.assignedTo.Some? then patch.assignedTo else t.assignedTo)
    ensures r.priority == patch.priority.GetOr(t.priority)
    ensures r.channel == patch.channel.GetOr(t.channel)
    ensures r.replies == (if patch.replies.Some? then patch.replies else t.replies)
    ensures r.userId == patch.userId.GetOr(t.userId)
  {
    t.(title := patch.title.GetOr(t.title),
       description := patch.description.GetOr(t.description),
       customerName := patch.customerName.GetOr(t.customerName),
       customerEmail := patch.customerEmail.GetOr(t.customerEmail),
       status := patch.status.GetOr(t.status),
       tags := patch.tags.GetOr(t.tags),
       assignedTo := if patch.assignedTo.Some? then patch.assignedTo else t.assignedTo,
       priority := patch.priority.GetOr(t.priority),
       channel := patch.channel.GetOr(t.channel),
       replies := if patch.replies.Some? then patch.replies else t.replies,
       userId := patch.userId.GetOr(t.userId),
       updatedAt := now)
  }

  /** A patch that sets nothing only refreshes the update time, and merging the same patch
      twice is merging it once. */
  lemma MergeLaws(t: Ticket, patch: TicketPatch<string>, now: int)
    ensures Merge(t, EmptyPatch(), now) == t.(updatedAt := now)
    ensures Merge(Merge(t, patch, now), patch, now) == Merge(t, patch, now)
  {
  }

  /** What `updateTicket` does once the lookup has answered: nothing found gives `None`,
      otherwise the merge. */
  function ApplyUpdate(current: Option<Ticket>, patch: TicketPatch<string>, now: int): (r: Option<Ticket>)
    ensures current.None? <==> r.None?
    ensures current.Some? ==> r == Some(Merge(current.value, patch, now))
  {
    match current
    case None => None
    case Some(t) => Some(Merge(t, patch, now))
  }

  /** `updateTicket`: looks the ticket up and merges the patch into it; undefined exactly
      when the lookup finds nothing. */
  function UpdateTicket(ticketId: string, patch: TicketPatch<string>, now: int): (r: Option<Ticket>)
    ensures r.None? <==> GetTicketById(ticketId).None?
    ensures GetTicketById(ticketId).Some? ==> r == Some(Merge(GetTicketById(ticketId).value, patch, now))
  {
    ApplyUpdate(GetTicketById(ticketId), patch, now)
  }

  /** Since the lookup is a stub, no update ever succeeds. */
  lemma UpdateTicketNeverFinds(ticketId: string, patch: TicketPatch<string>, now: int)
    ensures UpdateTicket(ticketId, patch, now) == None
  {
  }
}
