# ExperTed helpdesk — a Dafny model of its core logic

ExperTed is a helpdesk web application. Support agents use it to view, search, sort and
update tickets, to read and append to a ticket's conversation, to manage projects, and to
watch dashboards and report charts. This project models, in Dafny, the logic under those
screens and proves properties of it:

- the data layer: the mock projects and their queries, ticket creation, the ticket update
  merge, and the ticket query stubs;
- the ticket view:
  - the parse of the stored replies;
  - the payload an update sends;
  - adding and removing tags and filtering suggested tags;
  - sending a reply;
  - the smart-reply request and the use of a suggestion;
- the replies text: a serializer and parser for the JSON text of a reply list, with its
  round trip;
- the ticket and project lists: the case-insensitive search, and the comparators with their
  sort. Project dates may be missing; those projects sort last in ascending order and first
  in descending order;
- the relative-date text ("3 days ago");
- the dashboard's table of the five newest tickets;
- the status charts of the dashboard, of the reports (tickets) and of the projects: counts
  per status, the chart entries, the configuration and the "no data" test;
- the monthly charts, which group tickets by their month of creation and sort the months in
  time order;
- the sidebar: route matching, the open sub-menu dictionary, and its toggle and effect;
- the post-processing around the language model that turns an email into a ticket draft;
- the theme applicator's update of the document root's class list.

Code that changes state step by step is modelled as imperative Dafny:

- classes `TicketView.TicketViewClient`, `SidebarNav.SidebarNavState` and
  `ThemeApplicator.DocumentRoot`;
- the in-place sort `Sorting.SortInPlace`;
- the `reduce`/`forEach` loops of the charts.

Each of these is proved against a specification function, and lemmas state the properties
of that function. Pure code is modelled as functions and lemmas.

Time is modelled as follows:

- Timestamps are integers: milliseconds since the epoch.
- Where the source reads the clock, the current time is a parameter.
- The calendar month of a timestamp is a parameter `monthOf`. In the source it comes from
  date-fns and depends on the time zone.

Every external call is a function-valued parameter: the ticket store's update, the
smart-reply and tag-suggestion assistants, and the language model of the email flow.

## Model

| member | source | states |
|---|---|---|
| Data.SelectProjectsSpec | src/lib/data.ts:110-113 | the "all" key returns the list unchanged; any status key returns exactly the projects with that status, as a subsequence in original order, with length equal to their count |
| Data.GetProjectsByStatus | src/lib/data.ts:110-113 | "all" returns the mock table; a status returns exactly its projects with that status, in table order, with their count as length |
| Data.FindProject | src/lib/data.ts:115-117 | `None` exactly when no project has the id; otherwise a project with that id, the first one in the list |
| Data.FindProjectUnique | src/lib/data.ts:115-117 | with unique ids, looking up a project's id finds that project |
| Data.GetProjectById | src/lib/data.ts:115-117 | `None` exactly when no mock project has the id; otherwise a mock project with that id |
| Data.GetProjectByIdFindsEach | src/lib/data.ts:115-117 | every mock project is found by its own id |
| Data.MockProjectIdsUnique | src/lib/data.ts:13-53 | the mock project ids are pairwise different |
| Data.CreateTicket | src/lib/data.ts:58-72 | the id is "mock-" plus the creation time's digits; created and updated time equal the creation time; every supplied field is carried; replies that are absent or empty become the text of the empty list, which parses back to no replies |
| Data.CreateTicketIdAndReplies | src/lib/data.ts:65-71 | the created ticket's replies are never absent or empty; the digits after "mock-" read back as the creation time |
| Data.GetTicketsByStatus | src/lib/data.ts:74-79 | the stub returns no tickets for every status |
| Data.GetTicketById | src/lib/data.ts:81-86 | the stub finds no ticket |
| Data.GetNewTicketsTodayCount | src/lib/data.ts:88-93 | the stub counts 0 |
| Data.Merge | src/lib/data.ts:101-105 | id and creation time are kept; the update time is the clock's; each field is the patch's value where the patch has one, else the ticket's |
| Data.MergeLaws | src/lib/data.ts:101-105 | an empty patch changes only the update time; merging the same patch twice equals merging it once |
| Data.ApplyUpdate | src/lib/data.ts:95-106 | no result exactly when the lookup finds no ticket; otherwise the merge of the found ticket |
| Data.UpdateTicket | src/lib/data.ts:95-106 | undefined exactly when the lookup finds nothing; otherwise the merge of the found ticket with the patch |
| Data.UpdateTicketNeverFinds | src/lib/data.ts:95-106 | with the lookup stub, every update returns undefined |
| ReplyCodec.ParseChars | src/components/tickets/ticket-view-client.tsx:46 | parsing a string body consumes input: the rest after the closing quote is shorter than the text |
| ReplyCodec.ParseString | src/components/tickets/ticket-view-client.tsx:46 | parsing a string literal consumes input: the rest is shorter than the text |
| ReplyCodec.EscapeCharRoundTrip | src/components/tickets/ticket-view-client.tsx:59 | parsing one escaped character gives the character back |
| ReplyCodec.EscapeRoundTrip | src/components/tickets/ticket-view-client.tsx:59 | parsing an escaped string body gives the string back and the text after it |
| ReplyCodec.QuoteRoundTrip | src/components/tickets/ticket-view-client.tsx:59 | parsing a quoted string gives the string back and the text after it |
| ReplyCodec.Expect | src/components/tickets/ticket-view-client.tsx:46 | a matched literal is consumed whole: the rest is shorter by the literal's length |
| ReplyCodec.ExpectPrefix | src/components/tickets/ticket-view-client.tsx:46 | matching a literal on literal-plus-rest gives the rest |
| ReplyCodec.ParseField | src/components/tickets/ticket-view-client.tsx:46 | parsing a key and its value consumes more than the key: the rest is shorter than the text after the key |
| ReplyCodec.ParseFieldRoundTrip | src/components/tickets/ticket-view-client.tsx:59 | parsing a serialized field gives its value and the text after it |
| ReplyCodec.ParseReply | src/components/tickets/ticket-view-client.tsx:46 | parsing a reply object consumes input: the rest is shorter than the text |
| ReplyCodec.ParseReplyRoundTrip | src/components/tickets/ticket-view-client.tsx:59 | parsing a serialized reply gives the reply back and the text after it |
| ReplyCodec.Serialize | src/components/tickets/ticket-view-client.tsx:59 | the text of a reply list is a JSON array: it starts with '[' |
| ReplyCodec.ItemsRoundTrip | src/components/tickets/ticket-view-client.tsx:143 | the array items of a reply list parse back to the list |
| ReplyCodec.ItemsLast | src/components/tickets/ticket-view-client.tsx:143 | the last item parses and closes the array |
| ReplyCodec.ItemsStep | src/components/tickets/ticket-view-client.tsx:143 | an item followed by more items parses to the item prepended to the rest |
| ReplyCodec.RoundTrip | src/components/tickets/ticket-view-client.tsx:44-51 | parsing the JSON text of any reply list gives exactly that list |
| ReplyCodec.Parse | src/components/tickets/ticket-view-client.tsx:44-51 | "[]" reads as no replies; a text that does not start with '[' does not parse; RoundTrip gives the rest of its meaning |
| TicketView.ParsedReplies | src/components/tickets/ticket-view-client.tsx:44-51 | absent or empty replies read as no replies; text that does not parse reads as no replies; text that parses reads as its list |
| TicketView.ParsedRepliesOfSerialized | src/components/tickets/ticket-view-client.tsx:44-51 | a ticket whose replies are the text of a list reads back that list |
| TicketView.SavePayload | src/components/tickets/ticket-view-client.tsx:57-60 | every field except replies is passed through; replies are always sent; text is sent as is, a list as its JSON text, and absent replies as the text of the empty list |
| TicketView.SentReplyIsAppended | src/components/tickets/ticket-view-client.tsx:142-143 | after the merge, the saved reply text reads back as the old replies followed by the new one |
| TicketView.PatchWithoutRepliesClearsThem | src/components/tickets/ticket-view-client.tsx:57-60 | an update that supplies no replies (a status or tag change) stores a text that reads as no replies |
| TicketView.Without | src/components/tickets/ticket-view-client.tsx:126-129 | the removed tag is gone; every other tag stays as often as before (the multiset loses only that tag), in order; absent tags leave the list unchanged |
| TicketView.WithoutAdded | src/components/tickets/ticket-view-client.tsx:118-129 | removing a tag that was just added to a list without it gives the list back |
| TicketView.NotYetTagged | src/components/tickets/ticket-view-client.tsx:109 | the suggestions kept are exactly those the ticket does not have, each as often as suggested, in order |
| TicketView.Contents | src/components/tickets/ticket-view-client.tsx:87 | the contents of the replies, one per reply, in order |
| TicketView.SmartReplyContent | src/components/tickets/ticket-view-client.tsx:87-89 | the request starts with the description; it is the description alone exactly when there is no reply or one empty one; otherwise the `\\n` separator and the joined contents follow |
| TicketView.JoinSnoc | src/components/tickets/ticket-view-client.tsx:87 | `join` of a non-empty list with one more string is the old join, the separator and that string |
| TicketView.JoinEmpty | src/components/tickets/ticket-view-client.tsx:87 | with a non-empty separator the join is empty exactly when there is at most one string and it is empty |
| TicketView.SuggestionText | src/components/tickets/ticket-view-client.tsx:93 | the suggested response when there is one, else "Summary: " and the summary |
| TicketView.NewReply | src/components/tickets/ticket-view-client.tsx:134-140 | the new reply has the draft's content, the agent's id and name, the clock's ISO time and an id "reply-" plus the clock's digits |
| TicketView.TicketViewClient.constructor | src/components/tickets/ticket-view-client.tsx:30-36 | the view starts with the given ticket, empty draft and suggestion, no suggested tags and no update under way |
| TicketView.TicketViewClient.HandleTicketUpdate | src/components/tickets/ticket-view-client.tsx:54-76 | the store gets the ticket's id and the payload; the ticket is replaced only when the store returns one; no update is under way afterwards; nothing else changes |
| TicketView.TicketViewClient.HandleStatusChange | src/components/tickets/ticket-view-client.tsx:78-80 | the update carries only the new status |
| TicketView.TicketViewClient.AddTag | src/components/tickets/ticket-view-client.tsx:118-124 | a tag the ticket has changes nothing; a new tag is saved at the end of the tags and is dropped from the suggestions |
| TicketView.TicketViewClient.RemoveTag | src/components/tickets/ticket-view-client.tsx:126-129 | the update carries the tags without the removed one |
| TicketView.TicketViewClient.HandleSendReply | src/components/tickets/ticket-view-client.tsx:131-147 | a blank draft changes nothing; otherwise the saved replies are the old replies plus the new reply, and draft and suggestion are cleared |
| TicketView.TicketViewClient.HandleSuggestTags | src/components/tickets/ticket-view-client.tsx:102-116 | the suggestions are the assistant's tags not on the ticket, or none when it fails; nothing else changes |
| TicketView.TicketViewClient.HandleSmartReply | src/components/tickets/ticket-view-client.tsx:82-100 | the suggestion is the assistant's text for the ticket's request, or empty when it fails; nothing else changes |
| TicketView.TicketViewClient.UseSuggestion | src/components/tickets/ticket-view-client.tsx:216 | the draft becomes the suggestion and the suggestion is cleared |
| Text.Lower | src/components/tickets/ticket-list-client.tsx:52-54 | `toLowerCase` keeps the length and lowers each character |
| Text.LowerIdempotent | src/components/tickets/ticket-list-client.tsx:52-54 | lowering twice is lowering once |
| Text.BeforeFirst | src/ai/flows/create-ticket-from-email-flow.ts:75 | `split(c)[0]` is the longest prefix without `c`, followed by `c` or the end |
| Text.ReplaceFirst | src/components/dashboard/dashboard-charts.tsx:78 | a one-character `replace` changes the first occurrence only, and nothing when there is none |
| Text.Label | src/components/dashboard/dashboard-charts.tsx:78 | the label upper-cases the first character and replaces the first '-' after it with a space |
| Text.NatToString | src/lib/data.ts:66 | a number renders as a non-empty string of decimal digits |
| Text.NatToStringValue | src/lib/data.ts:66 | the rendered digits read back as the number |
| Text.LexLessIrreflexive | src/components/projects/project-list-client.tsx:92-93 | no string is less than itself |
| Text.LexLessTrichotomy | src/components/projects/project-list-client.tsx:92-94 | two different strings are ordered one way, equal ones neither way |
| Text.LexLessTransitive | src/components/projects/project-list-client.tsx:92-93 | the string order is transitive |
| RelativeDate.RelativeText | src/components/tickets/ticket-list-client.tsx:33-43 | "just now" exactly under one minute (the future included); every other text ends in " ago" |
| RelativeDate.FormatRelativeDate | src/components/tickets/ticket-list-client.tsx:28-44 | on elapsed milliseconds: "just now" exactly under 60000, "1 minute ago" up to 120000, "1 day ago" for one day, and whole days from two days on |
| RelativeDate.MillisToDays | src/components/tickets/ticket-list-client.tsx:31-35 | flooring milliseconds to seconds and then to days equals flooring by the milliseconds of a day; under 60 seconds means under 60000 milliseconds |
| RelativeDate.NestedFloors | src/components/tickets/ticket-list-client.tsx:33-35 | flooring to minutes, then hours, then days equals flooring by 3600 and by 86400 seconds |
| RelativeDate.RelativeTextThresholds | src/components/tickets/ticket-list-client.tsx:28-44 | the text for each range of elapsed seconds: "just now" under a minute, then minutes, one hour, hours, one day, days |
| TicketList.SearchSpec | src/components/tickets/ticket-list-client.tsx:51-55 | the search keeps, in order and as often as listed, exactly the tickets whose title, customer name or id contains the term, ignoring case |
| TicketList.SearchEmptyTerm | src/components/tickets/ticket-list-client.tsx:51-55 | an empty term keeps every ticket |
| TicketList.SearchIgnoresCase | src/components/tickets/ticket-list-client.tsx:51-55 | the search for a term equals the search for its lower-cased form |
| TicketList.PriorityRank | src/components/tickets/ticket-list-client.tsx:66-69 | ranks lie below 4; low is 0 and urgent is 3 |
| TicketList.PriorityRankOrder | src/components/tickets/ticket-list-client.tsx:67 | low < medium < high < urgent, and the ranks distinguish priorities |
| TicketList.Compare | src/components/tickets/ticket-list-client.tsx:59-75 | 0 exactly on equal keys; negative exactly when the first key is smaller (ascending) or larger (descending) |
| TicketList.CompareDescNegatesAsc | src/components/tickets/ticket-list-client.tsx:72-73 | descending is ascending negated |
| TicketList.ComparatorIsPreorder | src/components/tickets/ticket-list-client.tsx:59-75 | every comparator is a total preorder |
| TicketList.SortedByKey | src/components/tickets/ticket-list-client.tsx:59-75 | a list sorted by a comparator has non-decreasing keys (ascending) or non-increasing keys (descending) |
| TicketList.FilteredAndSortedTickets | src/components/tickets/ticket-list-client.tsx:50-78 | the result is a permutation of the search result, holds exactly the matching tickets, and is ordered by the selected key and direction |
| ProjectList.SearchSpec | src/components/projects/project-list-client.tsx:68-72 | the search keeps, in order and as often as listed, exactly the projects whose name, description or id contains the term; it ignores the term's case |
| ProjectList.CompareDates | src/components/projects/project-list-client.tsx:80-86 | two missing dates tie; a missing date goes after a present one when ascending and before it when descending; present dates compare by value in the chosen direction |
| ProjectList.CompareNames | src/components/projects/project-list-client.tsx:87-94 | names compare by their lower-cased forms; 0 exactly on equal lower-cased names |
| ProjectList.CompareDescNegatesAsc | src/components/projects/project-list-client.tsx:83-84 | descending is ascending negated, for dates and names |
| ProjectList.CompareNamesIgnoresCase | src/components/projects/project-list-client.tsx:87-90 | lower-casing a name does not change its comparisons |
| ProjectList.ComparatorIsPreorder | src/components/projects/project-list-client.tsx:76-95 | every comparator is a total preorder, missing dates included |
| ProjectList.SortedByDate | src/components/projects/project-list-client.tsx:80-86 | in a sorted list, projects without a date come last (ascending) or first (descending), and dates are in order |
| ProjectList.SortedByName | src/components/projects/project-list-client.tsx:87-94 | in a list sorted by name, the lower-cased names are in order |
| ProjectList.FilteredAndSortedProjects | src/components/projects/project-list-client.tsx:67-96 | the result is a permutation of the search result, holds exactly the matching projects, and is sorted by the comparator |
| Sorting.SortInPlace | src/components/tickets/ticket-list-client.tsx:59 | `Array.prototype.sort` with a consistent comparator: afterwards the array is sorted and a permutation of the input |
| Sorting.SortedCopy | src/components/dashboard/recent-tickets-table.tsx:38-39 | `[...list].sort(cmp)`: a copy of the same length, sorted, and a permutation of the list |
| Seqs.FilterMultiset | src/components/tickets/ticket-view-client.tsx:127 | `filter` keeps every occurrence of an element that passes and none of one that does not |
| RecentTickets.NewestFirstIsPreorder | src/components/dashboard/recent-tickets-table.tsx:40 | the newest-first comparator is a total preorder |
| RecentTickets.NewestFirstOrder | src/components/dashboard/recent-tickets-table.tsx:40 | a list sorted by it has non-increasing creation times |
| RecentTickets.SortedPrefix | src/components/dashboard/recent-tickets-table.tsx:39-41 | a prefix of a sorted permutation is in order and comes from the input; the rest are no newer than the prefix's last |
| RecentTickets.NewestPrefix | src/components/dashboard/recent-tickets-table.tsx:39-41 | the first k tickets of a newest-first permutation: newest first, drawn from the list, all of it when k is its length, and none left out is newer than the last kept |
| RecentTickets.SelectRecent | src/components/dashboard/recent-tickets-table.tsx:38-41 | at most five tickets, or all when there are fewer; newest first; taken from the input; every ticket left out is no newer than the last shown |
| RecentTickets.Rows | src/components/dashboard/recent-tickets-table.tsx:61-93 | one row per ticket, with its relative creation date |
| RecentTickets.RecentTicketsTable | src/components/dashboard/recent-tickets-table.tsx:37-41 | with the query stub the table has no rows |
| StatusTally.Tally | src/components/dashboard/dashboard-charts.tsx:70-73 | every status maps to its number of items; exactly the statuses that occur have a key |
| StatusTally.Entries | src/components/dashboard/dashboard-charts.tsx:75-81 | one entry per status of the order, with its label, count (0 when absent) and colour |
| StatusTally.NoDataIffZeroTotal | src/components/dashboard/dashboard-charts.tsx:139 | every count is 0 exactly when the counts add up to 0 |
| StatusTally.SumCountsIsLength | src/components/dashboard/dashboard-charts.tsx:70-81 | over an order that lists each occurring status once, the counts add up to the number of items |
| StatusTally.StatusChart | src/components/dashboard/dashboard-charts.tsx:70-81 | the entries as above; their counts add up to the number of items; "no data" exactly when there are no items |
| StatusTally.FillConfig | src/components/dashboard/dashboard-charts.tsx:85-91 | each entry's key holds its label and colour; the keys are the base ones plus the entries'; other base keys are kept |
| StatusTally.OrderConfig | src/components/charts/monthly-status-breakdown-chart.tsx:46-54 | each status key of the order holds its label and colour; the base keys are kept; no other keys |
| StatusTally.StatusChartAndConfig | src/components/dashboard/dashboard-charts.tsx:69-92 | the entries and the configuration together |
| DashboardCharts.StatusOrderComplete | src/components/dashboard/dashboard-charts.tsx:16-23 | the colour table lists each ticket status once, under different keys, none of them "count" or "line" |
| DashboardCharts.StatusData | src/components/dashboard/dashboard-charts.tsx:69-92 | six entries in table order with label, count and colour; the counts add up to the number of tickets; "no data" exactly when there are none; the configuration is the count series plus one key per status |
| DashboardCharts.DashboardChartsData | src/components/dashboard/dashboard-charts.tsx:65-92 | with the query stub the chart shows "no data" |
| OverallStatusChart.ProcessTickets | src/components/charts/overall-tickets-by-status-chart.tsx:40-66 | as the dashboard chart, for the given tickets; the configuration also holds the count and line series |
| ProjectStatusChart.StatusOrderComplete | src/components/charts/project-status-report-chart.tsx:13-18 | the colour table lists each project status once, under different keys |
| ProjectStatusChart.ProcessProjects | src/components/charts/project-status-report-chart.tsx:40-62 | four entries in table order with label, count and colour; the counts add up to the number of projects; "no data" exactly when there are none; the configuration has one key per status |
| Months.FoldUntouched | src/components/charts/monthly-status-breakdown-chart.tsx:59-75 | a month without tickets keeps its initial record |
| Months.FoldMonth | src/components/charts/monthly-status-breakdown-chart.tsx:63-70 | a month's record carries its month |
| Months.GroupByMonth | src/components/charts/monthly-status-breakdown-chart.tsx:59-75 | the months with a record are exactly those with tickets, each once, and each record is the fold of its month's tickets |
| Months.ChronoCompare | src/components/charts/monthly-status-breakdown-chart.tsx:77-80 | negative exactly when the first month is earlier; 0 exactly on the same month |
| Months.RowCompareIsPreorder | src/components/charts/monthly-status-breakdown-chart.tsx:77-80 | the month comparator is a total preorder |
| Months.MonthlyRows | src/components/charts/monthly-status-breakdown-chart.tsx:59-80 | the sorted records: strictly in time order, one per month with tickets, none for others, each the fold of its month |
| Months.RowsFacts | src/components/charts/monthly-status-breakdown-chart.tsx:77-80 | the sorted permutation of distinct records has strictly increasing months and covers every ticket's month |
| Months.MonthTicketsPositive | src/components/charts/monthly-status-breakdown-chart.tsx:63 | the month of a ticket in the list has tickets |
| Months.MonthTicketsSum | src/components/charts/monthly-ticket-volume-report-chart.tsx:34-56 | over records of distinct months covering every ticket, the per-month counts add up to the number of tickets |
| MonthlyVolumeChart.VolumeFold | src/components/charts/monthly-ticket-volume-report-chart.tsx:34-49 | a month's record holds the number of tickets created in it |
| MonthlyVolumeChart.MonthlyVolume | src/components/charts/monthly-ticket-volume-report-chart.tsx:34-58 | bars in strict time order, one per month with tickets, each with its count; the counts add up to the number of tickets; no bars exactly when there are no tickets |
| MonthlyVolumeChart.MonthlyVolumeReport | src/components/charts/monthly-ticket-volume-report-chart.tsx:28-66 | with the query stub the chart has no bars |
| MonthlyBreakdownChart.StatusCounts.Add | src/components/charts/monthly-status-breakdown-chart.tsx:73 | one more for the ticket's status, the others unchanged; the sum grows by one |
| MonthlyBreakdownChart.BreakdownFold | src/components/charts/monthly-status-breakdown-chart.tsx:59-75 | a month's record: total = its number of tickets, each status count = its tickets with that status, and the counts add up to the total |
| MonthlyBreakdownChart.MonthlyBreakdown | src/components/charts/monthly-status-breakdown-chart.tsx:56-81 | records in strict time order, one per month with tickets, with total and per-status counts that add up; the totals add up to the number of tickets; none exactly when there are no tickets |
| MonthlyBreakdownChart.ConfigOrderComplete | src/components/charts/monthly-status-breakdown-chart.tsx:14-21 | the colour table lists each status, under different keys, none of them "totalTickets" |
| MonthlyBreakdownChart.BreakdownConfig | src/components/charts/monthly-status-breakdown-chart.tsx:46-54 | the total series plus, for every status, its label and colour under its key, and nothing else |
| SidebarNav.TicketSubIndex | src/components/layout/sidebar-nav.tsx:55-63 | every ticket list route has an exact-match sub-entry |
| SidebarNav.ProjectSubIndex | src/components/layout/sidebar-nav.tsx:65-71 | every project list route has an exact-match sub-entry |
| SidebarNav.TicketSubEntriesMatchFilters | src/components/layout/sidebar-nav.tsx:55-63 | the seven ticket sub-entries correspond one to one to "all" and the six statuses, each carrying that list's route |
| SidebarNav.ProjectSubEntriesMatchFilters | src/components/layout/sidebar-nav.tsx:65-71 | the five project sub-entries correspond one to one to "all" and the four statuses, each carrying that list's route |
| SidebarNav.IsActive | src/components/layout/sidebar-nav.tsx:90-95 | exact entries are active on equality only; an active entry's route is a prefix of the current one, so exact activity implies prefix activity; an entry is active on its own route |
| SidebarNav.FirstActiveParent | src/components/layout/sidebar-nav.tsx:98 | the first entry with an active sub-entry, or none when no entry has one |
| SidebarNav.InitialOpen | src/components/layout/sidebar-nav.tsx:97-100 | the initial dictionary opens only the first entry with an active sub-entry, or nothing |
| SidebarNav.TicketRouteOpensTickets | src/components/layout/sidebar-nav.tsx:73-100 | on a ticket list route only the Tickets menu starts open |
| SidebarNav.ProjectRouteOpensProjects | src/components/layout/sidebar-nav.tsx:73-100 | on a project list route only the Projects menu starts open |
| SidebarNav.Toggled | src/components/layout/sidebar-nav.tsx:102-104 | the toggled menu flips between open and closed; every other entry is unchanged |
| SidebarNav.ToggleTwice | src/components/layout/sidebar-nav.tsx:102-104 | toggling twice restores every menu's reading |
| SidebarNav.OpenedSpec | src/components/layout/sidebar-nav.tsx:106-115 | after the effect every entry with an active sub-entry is open; every other key is unchanged |
| SidebarNav.OpenedIdempotent | src/components/layout/sidebar-nav.tsx:106-115 | running the effect again changes nothing |
| SidebarNav.ToggleThenEffect | src/components/layout/sidebar-nav.tsx:102-115 | after a toggle and the effect every active section is open; any other toggled menu has flipped, and the rest keep their reading |
| SidebarNav.ActiveMenuCannotClose | src/components/layout/sidebar-nav.tsx:106-115 | on "/tickets/all" toggling the open Tickets menu leaves it open |
| SidebarNav.RouteKeyedToggleCloses | src/components/layout/sidebar-nav.tsx:102-104 | with the effect keyed on the route only, the toggle closes the open Tickets menu, and a change to a ticket list route opens it again |
| SidebarNav.SidebarNavState.constructor | src/components/layout/sidebar-nav.tsx:97-100 | the state starts with the initial dictionary for the route |
| SidebarNav.SidebarNavState.ToggleSubMenu | src/components/layout/sidebar-nav.tsx:102-115 | the toggle, then the effect that its change of the dictionary runs again: the dictionary becomes `Opened` of the toggled one |
| SidebarNav.SidebarNavState.OpenActiveParents | src/components/layout/sidebar-nav.tsx:106-115 | the loop over the main entries leaves the dictionary the effect specifies |
| SidebarNav.SidebarNavState.Navigate | src/components/layout/sidebar-nav.tsx:106-115 | a route change runs the effect for the new route |
| EmailFlow.CustomerName | src/ai/flows/create-ticket-from-email-flow.ts:75 | the sender's name when present and non-empty, else the address before its first '@'; empty exactly when there is no name and the address is empty or starts with '@' |
| EmailFlow.PromptInput | src/ai/flows/create-ticket-from-email-flow.ts:77-80 | the prompt gets the email with the derived name as the sender's name |
| EmailFlow.WithDefaults | src/ai/flows/create-ticket-from-email-flow.ts:87-94 | title, description and tags pass through; an empty name or address is replaced by the derived name or the sender's address; a missing priority, channel or status becomes medium, email or new |
| EmailFlow.WithDefaultsIdempotent | src/ai/flows/create-ticket-from-email-flow.ts:87-94 | filling the defaults twice equals filling them once |
| EmailFlow.CreateTicketFromEmail | src/ai/flows/create-ticket-from-email-flow.ts:66-96 | an error with the fixed message exactly when the model returns nothing; otherwise the model's draft with defaults |
| EmailFlow.DraftComplete | src/ai/flows/create-ticket-from-email-flow.ts:28-30 | a returned draft has a priority, channel and status from their enumerations; its address is non-empty when the sender's is; its name is non-empty when the derived one is |
| ThemeApplicator.FontClass | src/components/common/theme-applicator.tsx:36-37 | a size class only for a size that is present, non-empty and not "default" |
| ThemeApplicator.ThemeClass | src/components/common/theme-applicator.tsx:44-48 | the preferred theme's class, or "theme-default" without one |
| ThemeApplicator.AddedClassesDistinct | src/components/common/theme-applicator.tsx:19-48 | the added size and theme classes are different from "dark" and from each other |
| ThemeApplicator.AppliedDark | src/components/common/theme-applicator.tsx:19-30 | dark mode on adds "dark", off removes it, unset leaves it as it was |
| ThemeApplicator.AppliedFontSize | src/components/common/theme-applicator.tsx:34-38 | a size class is present afterwards exactly when the preferred size names it; without a size class nothing new but "dark" and the theme class appears |
| ThemeApplicator.AppliedTheme | src/components/common/theme-applicator.tsx:41-48 | the preferred theme class is present and no other of the four themes |
| ThemeApplicator.AppliedKeepsOthers | src/components/common/theme-applicator.tsx:19-48 | classes the update does not manage or add are untouched |
| ThemeApplicator.AppliedIdempotent | src/components/common/theme-applicator.tsx:19-48 | applying the same preferences twice equals applying them once |
| ThemeApplicator.DocumentRoot.constructor | src/components/common/theme-applicator.tsx:14 | the root starts with the given classes |
| ThemeApplicator.DocumentRoot.ApplyPreferences | src/components/common/theme-applicator.tsx:11-50 | the in-place update, with the theme-removal loop, leaves the class list the specification gives |

## Left out

- Rendering, toasts, loading flags other than `isUpdating`, console output, `router.refresh`,
  printing and downloads: they display state and change none of the modelled state.
- Asynchrony: each store or assistant call is one function application. A call that throws
  or returns nothing is `None`.
- The clock: each operation reads it once, through its `now` parameters. The source reads it
  separately for `createdAt` and `updatedAt`; the two readings are taken to be equal.
- Dates: they are integers (milliseconds) rather than ISO strings, so the `Date` parse is
  not modelled. The "MMM yyyy" key of the monthly charts is replaced by the (year, month)
  pair it denotes.
- `monthOf`: date-fns' `getYear`/`getMonth` and the time zone are a parameter.
- `$createdAt`: the monthly charts read the document's `$createdAt`; the model uses the
  ticket's one creation time.
- ReplyCodec.Parse accepts exactly the text `JSON.stringify` writes for a reply list: keys
  in declaration order, no white space. Other valid JSON, and JSON that is not an array of
  replies, read as no replies. The source would accept such text, or misuse it.
- Text.Lower: only ASCII letters change case. Full Unicode case mapping is not modelled.
- Text.LexLess: it compares characters. JavaScript's `<` compares UTF-16 code units, which
  orders characters beyond the Basic Multilingual Plane differently.
- Deadlines: `null` and missing deadlines are `None`. An invalid date string (a NaN time) is
  not modelled.
- Sorting.SortInPlace: the proof tracks the multiset of the elements, not the position each
  came from, so it does not state that elements the comparator ties keep their input order,
  which `Array.prototype.sort` guarantees; stating it would need every element's original
  index carried through each swap of the array loop. The order of ties in the ticket and
  project lists is therefore not promised.
- The dashboard's initial configuration (dashboard-charts.tsx:25-33, keyed `onHold`): it is
  replaced on load and is not modelled.
- StatusTally.Entries: the fallback colour `hsl(var(--muted))` is modelled, but every status
  of the tables has a colour, so the fallback is never used.
- The object spread of an update keeps `undefined` values. The patch model treats an
  undefined field as absent.
- Naming: the model uses `id`, `createdAt` and `updatedAt` throughout. The source mixes
  `id`/`$id` and `createdAt`/`$createdAt`.
- NavItem icons and badges, and the collapsed or mobile sidebar, are presentation and are
  not modelled.
- EmailFlow: the schema's email and datetime validation and the prompt's text are not
  modelled. The enum range of the draft holds by the result's types.
- ThemeApplicator: the system dark-mode fallback branch does nothing in the source and is
  left out. `UserPreferences` is not defined in the model's sources, so its three optional
  fields are assumed.

## Findings

| source | as written | input that shows it | evidently intended | confidence | as-written member | corrected member |
|---|---|---|---|---|---|---|
| src/components/layout/sidebar-nav.tsx:106-115 | the effect that opens the section of the active route lists `openSubMenus` among its dependencies, so it runs again after every toggle and reopens an active section at once | on "/tickets/all" with the Tickets menu open, `toggleSubMenu("Tickets")` closes it and the effect opens it again, so the section cannot be collapsed | the effect opens the active section when the route changes; a toggle by the user then sticks until the next route change | medium; not executed | SidebarNav.ActiveMenuCannotClose | SidebarNav.RouteKeyedToggleCloses |

`SidebarNav.SidebarNavState.ToggleSubMenu` models the program as written, with the effect run
again after the flip. The corrected toggle is `SidebarNav.Toggled` alone, followed by the
effect only on `Navigate`.
