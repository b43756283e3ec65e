/** The ticket view: the reply list read from the ticket's JSON text, the update payload
    normalisation, and the handlers that change the view's state (status, tags, replies and
    the assistant's suggestions). The store and the assistant are parameters; each handler
    is one synchronous step. */
module TicketView {
  import opened Wrappers
  import opened Types
  import opened Seqs
  import Text
  import ReplyCodec
  import Data

  /** The replies of a ticket: the parse of its reply text; an absent, empty or unreadable
      text gives no replies. */
  function ParsedReplies(t: Ticket): (r: seq<Reply>)
    ensures t.replies.None? || t.replies == Some("") ==> r == []
    ensures t.replies.Some? && ReplyCodec.Parse(t.replies.value).None? ==> r == []
    ensures t.replies.Some? && ReplyCodec.Parse(t.replies.value).Some? ==> r == ReplyCodec.Parse(t.replies.value).value
  {
    match t.replies
    case None => []
    case Some(text) =>
      if text == "" then []
      else
        match ReplyCodec.Parse(text)
        case None => []
        case Some(rs) => rs
  }

  /** A ticket whose reply text is the JSON of a list shows exactly that list. */
  lemma ParsedRepliesOfSerialized(t: Ticket, rs: seq<Reply>)
    requires t.replies == Some(ReplyCodec.Serialize(rs))
    ensures ParsedReplies(t) == rs
  {
    ReplyCodec.RoundTrip(rs);
  }

  /** What a caller may pass as `replies` in an update: JSON text or a list of replies. */
  datatype RepliesInput = RepliesText(text: string) | RepliesList(list: seq<Reply>)

  /** `dataToSave`: every field as given, except that `replies` is always sent: text passes
      through, a list is written as JSON, and a missing value as the JSON of no replies. */
  function SavePayload(fields: TicketPatch<RepliesInput>): (r: TicketPatch<string>)
    ensures r.title == fields.title && r.description == fields.description
    ensures r.customerName == fields.customerName && r.customerEmail == fields.customerEmail
    ensures r.updatedAt == fields.updatedAt && r.status == fields.status && r.tags == fields.tags
    ensures r.assignedTo == fields.assignedTo && r.priority == fields.priority
    ensures r.channel == fields.channel && r.userId == fields.userId
    ensures r.replies.Some?
    ensures fields.replies.Some? && fields.replies.value.RepliesText? ==> r.replies == Some(fields.replies.value.text)
    ensures fields.replies.Some? && fields.replies.value.RepliesList? ==> ReplyCodec.Parse(r.replies.value) == Some(fields.replies.value.list)
    ensures fields.replies.None? ==> ReplyCodec.Parse(r.replies.value) == Some([])
  {
    var replies := (match fields.replies
      case Some(RepliesText(s)) => s
      case Some(RepliesList(rs)) => ReplyCodec.RoundTrip(rs); ReplyCodec.Serialize(rs)
      case None => ReplyCodec.Serialize([]));
    TicketPatch(fields.title, fields.description, fields.customerName, fields.customerEmail,
      fields.updatedAt, fields.status, fields.tags, fields.assignedTo, fields.priority,
      fields.channel, Some(replies), fields.userId)
  }

  /** Sending a reply to a store that merges the payload leaves the ticket showing its
      former replies followed by the new one. */
  lemma SentReplyIsAppended(t: Ticket, reply: Reply, now: int)
    ensures var text := ReplyCodec.Serialize(ParsedReplies(t) + [reply]);
      ParsedReplies(Data.Merge(t, SavePayload(RepliesPatch(text)), now)) == ParsedReplies(t) + [reply]
  {
    ReplyCodec.RoundTrip(ParsedReplies(t) + [reply]);
  }

  /** A patch of one status. */
  function StatusPatch(status: TicketStatus): TicketPatch<RepliesInput>
  {
    EmptyPatch().(status := Some(status))
  }

  /** A patch of one tag list. */
  function TagsPatch(tags: seq<string>): TicketPatch<RepliesInput>
  {
    EmptyPatch().(tags := Some(tags))
  }

  /** A patch of one reply text. */
  function RepliesPatch(text: string): TicketPatch<RepliesInput>
  {
    EmptyPatch().(replies := Some(RepliesText(text)))
  }

  /** A status or tag update that leaves `replies` out still sends the JSON of no replies,
      so a store that merges the payload, as `updateTicket` does, drops the ticket's
      replies. */
  lemma PatchWithoutRepliesClearsThem(t: Ticket, fields: TicketPatch<RepliesInput>, now: int)
    requires fields.replies.None?
    ensures ParsedReplies(Data.Merge(t, SavePayload(fields), now)) == []
  {
  }

  /** `tags.filter(t => t !== tag)`: every occurrence of the tag is gone, and the other tags
      are kept in their order, each as often as before. */
  function Without(tags: seq<string>, tag: string): (r: seq<string>)
    ensures tag !in r
    ensures forall t :: t in r <==> t in tags && t != tag
    ensures IsSubsequence(r, tags)
    ensures multiset(r) == multiset(tags)[tag := 0]
    ensures tag !in tags ==> r == tags
  {
    var p := (t: string) => t != tag;
    FilterSpec(p, tags);
    FilterMultiset(p, tags);
    assert multiset(Filter(p, tags)) == multiset(tags)[tag := 0];
    if tag !in tags then FilterAll(p, tags); Filter(p, tags) else Filter(p, tags)
  }

  /** Removing a tag that was just added to a list without it gives the list back. */
  lemma WithoutAdded(tags: seq<string>, tag: string)
    requires tag !in tags
    ensures Without(tags + [tag], tag) == tags
  {
    var p := (t: string) => t != tag;
    FilterAppend(p, tags, [tag]);
    FilterAll(p, tags);
    assert Filter(p, [tag]) == [];
  }

  /** `suggested.filter(tag => !tags.includes(tag))`: the suggestions the ticket does not
      have yet, in their order, each as often as it was suggested. */
  function NotYetTagged(suggested: seq<string>, tags: seq<string>): (r: seq<string>)
    ensures forall t :: t in r <==> t in suggested && t !in tags
    ensures IsSubsequence(r, suggested)
    ensures forall t :: multiset(r)[t] == if t in tags then 0 else multiset(suggested)[t]
  {
    var p := (t: string) => t !in tags;
    FilterSpec(p, suggested);
    FilterMultiset(p, suggested);
    Filter(p, suggested)
  }

  /** `arr.join(sep)`. */
  function Join(xs: seq<string>, sep: string): string
  {
    if xs == [] then "" else if |xs| == 1 then xs[0] else xs[0] + sep + Join(xs[1..], sep)
  }

  /** Joining one more string puts the separator and that string at the end. */
  lemma {:induction false} JoinSnoc(xs: seq<string>, x: string, sep: string)
    requires xs != []
    ensures Join(xs + [x], sep) == Join(xs, sep) + sep + x
    decreases |xs|
  {
    var ys := xs + [x];
    assert ys[0] == xs[0];
    if |xs| == 1 {
      assert ys[1..] == [x];
    } else {
      assert ys[1..] == xs[1..] + [x];
      JoinSnoc(xs[1..], x, sep);
    }
  }

  /** With a non-empty separator the joined text is empty exactly when there is at most one
      string and that one is empty. */
  lemma {:induction false} JoinEmpty(xs: seq<string>, sep: string)
    requires sep != ""
    ensures Join(xs, sep) == "" <==> |xs| == 0 || (|xs| == 1 && xs[0] == "")
  {
    if |xs| > 1 {
      assert |Join(xs, sep)| >= |sep|;
    }
  }

  /** The contents of the replies. */
  function Contents(rs: seq<Reply>): (r: seq<string>)
    ensures |r| == |rs| && forall i :: 0 <= i < |rs| ==> r[i] == rs[i].content
  {
    seq(|rs|, i requires 0 <= i < |rs| => rs[i].content)
  }

  /** The source writes the separator as the two characters backslash and `n`. */
  const ReplySeparator: string := ['\\', 'n']

  /** The text sent to the smart-reply assistant: the description, then the reply contents
      joined, when that joined text is not empty. It is the description alone exactly when
      there is no reply or a single empty one; otherwise the separator and the joined
      contents follow it. */
  function SmartReplyContent(t: Ticket): (r: string)
    ensures t.description <= r
    ensures var rs := ParsedReplies(t);
      r == t.description <==> rs == [] || (|rs| == 1 && rs[0].content == "")
    ensures var joined := Join(Contents(ParsedReplies(t)), ReplySeparator);
      joined != "" ==> r == t.description + ReplySeparator + joined
  {
    var joined := Join(Contents(ParsedReplies(t)), ReplySeparator);
    JoinEmpty(Contents(ParsedReplies(t)), ReplySeparator);
    t.description + (if joined != "" then ReplySeparator + joined else "")
  }

  /** What the smart-reply assistant answers. */
  datatype SmartReplies = SmartReplies(ticketSummary: string, suggestedResponse: string)

  /** The suggestion shown: the suggested response, or the summary when the response is empty. */
  function SuggestionText(result: SmartReplies): (r: string)
    ensures result.suggestedResponse != "" ==> r == result.suggestedResponse
    ensures result.suggestedResponse == "" ==> r == "Summary: " + result.ticketSummary
  {
    if result.suggestedResponse != "" then result.suggestedResponse else "Summary: " + result.ticketSummary
  }

  const AgentId: string := "current-agent-id"
  const AgentName: string := "Support Agent"

  /** The reply an agent sends: an id from the clock in milliseconds, the agent's identity,
      the typed content and the ISO text of the clock. */
  function NewReply(content: string, nowMs: nat, nowIso: string): (r: Reply)
    ensures r.content == content && r.createdAt == nowIso
    ensures r.userId == AgentId && r.userName == AgentName
    ensures r.id == "reply-" + Text.NatToString(nowMs)
  {
    Reply("reply-" + Text.NatToString(nowMs), AgentId, AgentName, content, nowIso)
  }

  /** The state of the ticket view. */
  class TicketViewClient {
    var ticket: Ticket
    var replyContent: string
    var suggestedReply: string
    var aiSuggestedTags: seq<string>
    var isUpdating: bool

    /** The view opens on the given ticket with an empty draft and no suggestions. */
    constructor (initial: Ticket)
      ensures ticket == initial && replyContent == "" && suggestedReply == ""
      ensures aiSuggestedTags == [] && !isUpdating
    {
      ticket := initial;
      replyContent := "";
      suggestedReply := "";
      aiSuggestedTags := [];
      isUpdating := false;
    }

    /** `handleTicketUpdate`: sends the normalised payload for the ticket's id; the ticket is
        replaced only when the store returns a document. A store that fails answers `None`. */
    method HandleTicketUpdate(fields: TicketPatch<RepliesInput>, store: (string, TicketPatch<string>) -> Option<Ticket>)
      modifies this
      ensures var saved := store(old(ticket).id, SavePayload(fields));
        ticket == (if saved.Some? then saved.value else old(ticket))
      ensures !isUpdating
      ensures replyContent == old(replyContent) && suggestedReply == old(suggestedReply)
      ensures aiSuggestedTags == old(aiSuggestedTags)
    {
      isUpdating := true;
      var payload := SavePayload(fields);
      var updatedDoc := store(ticket.id, payload);
      if updatedDoc.Some? {
        ticket := updatedDoc.value;
      }
      isUpdating := false;
    }

    /** `handleStatusChange`: an update of the status alone. */
    method HandleStatusChange(status: TicketStatus, store: (string, TicketPatch<string>) -> Option<Ticket>)
      modifies this
      ensures var saved := store(old(ticket).id, SavePayload(StatusPatch(status)));
        ticket == (if saved.Some? then saved.value else old(ticket))
      ensures !isUpdating
      ensures replyContent == old(replyContent) && suggestedReply == old(suggestedReply)
      ensures aiSuggestedTags == old(aiSuggestedTags)
    {
      HandleTicketUpdate(StatusPatch(status), store);
    }

    /** `addTag`: a tag already on the ticket changes nothing; otherwise the tag list with the
        tag appended is saved and the tag leaves the suggestions. */
    method AddTag(tag: string, store: (string, TicketPatch<string>) -> Option<Ticket>)
      modifies this
      ensures tag in old(ticket.tags) ==>
        ticket == old(ticket) && aiSuggestedTags == old(aiSuggestedTags) && isUpdating == old(isUpdating)
      ensures tag !in old(ticket.tags) ==>
        var saved := store(old(ticket).id, SavePayload(TagsPatch(old(ticket.tags) + [tag])));
        && ticket == (if saved.Some? then saved.value else old(ticket))
        && aiSuggestedTags == Without(old(aiSuggestedTags), tag)
        && !isUpdating
      ensures tag !in aiSuggestedTags || tag in old(ticket.tags)
      ensures replyContent == old(replyContent) && suggestedReply == old(suggestedReply)
    {
      if tag !in ticket.tags {
        var newTags := ticket.tags + [tag];
        HandleTicketUpdate(TagsPatch(newTags), store);
        aiSuggestedTags := Without(aiSuggestedTags, tag);
      }
    }

    /** `removeTag`: saves the tag list without any occurrence of the tag. */
    method RemoveTag(tag: string, store: (string, TicketPatch<string>) -> Option<Ticket>)
      modifies this
      ensures var saved := store(old(ticket).id, SavePayload(TagsPatch(Without(old(ticket.tags), tag))));
        ticket == (if saved.Some? then saved.value else old(ticket))
      ensures !isUpdating
      ensures replyContent == old(replyContent) && suggestedReply == old(suggestedReply)
      ensures aiSuggestedTags == old(aiSuggestedTags)
    {
      var newTags := Without(ticket.tags, tag);
      HandleTicketUpdate(TagsPatch(newTags), store);
    }

    /** `handleSendReply`: a blank draft changes nothing; otherwise the JSON of the shown
        replies followed by the new reply is saved and the draft and suggestion are cleared. */
    method HandleSendReply(nowMs: nat, nowIso: string, store: (string, TicketPatch<string>) -> Option<Ticket>)
      modifies this
      ensures Text.IsBlank(old(replyContent)) ==>
        ticket == old(ticket) && replyContent == old(replyContent) && suggestedReply == old(suggestedReply)
        && isUpdating == old(isUpdating)
      ensures !Text.IsBlank(old(replyContent)) ==>
        var replies := ParsedReplies(old(ticket)) + [NewReply(old(replyContent), nowMs, nowIso)];
        var saved := store(old(ticket).id, SavePayload(RepliesPatch(ReplyCodec.Serialize(replies))));
        && ticket == (if saved.Some? then saved.value else old(ticket))
        && replyContent == "" && suggestedReply == "" && !isUpdating
      ensures aiSuggestedTags == old(aiSuggestedTags)
    {
      if Text.IsBlank(replyContent) {
        return;
      }
      var newReply := NewReply(replyContent, nowMs, nowIso);
      var updatedReplies := ParsedReplies(ticket) + [newReply];
      HandleTicketUpdate(RepliesPatch(ReplyCodec.Serialize(updatedReplies)), store);
      replyContent := "";
      suggestedReply := "";
    }

    /** `handleSuggestTags`: the suggestions come from the assistant on the description,
        without the tags the ticket already has; a failed call leaves none. */
    method HandleSuggestTags(assistant: string -> Option<seq<string>>)
      modifies this
      ensures var result := assistant(old(ticket).description);
        aiSuggestedTags == (if result.Some? then NotYetTagged(result.value, old(ticket.tags)) else [])
      ensures forall t :: t in aiSuggestedTags ==> t !in ticket.tags
      ensures ticket == old(ticket) && replyContent == old(replyContent) && suggestedReply == old(suggestedReply)
      ensures isUpdating == old(isUpdating)
    {
      aiSuggestedTags := [];
      var result := assistant(ticket.description);
      if result.Some? {
        aiSuggestedTags := NotYetTagged(result.value, ticket.tags);
      }
    }

    /** `handleSmartReply`: asks the assistant about the ticket's text and the user, and shows
        its suggestion; a failed call leaves the suggestion empty. */
    method HandleSmartReply(assistant: (string, string) -> Option<SmartReplies>)
      modifies this
      ensures var result := assistant(SmartReplyContent(old(ticket)), old(ticket).userId);
        suggestedReply == (if result.Some? then SuggestionText(result.value) else "")
      ensures ticket == old(ticket) && replyContent == old(replyContent)
      ensures aiSuggestedTags == old(aiSuggestedTags) && isUpdating == old(isUpdating)
    {
      suggestedReply := "";
      var result := assistant(SmartReplyContent(ticket), ticket.userId);
      if result.Some? {
        suggestedReply := SuggestionText(result.value);
      }
    }

    /** The "use suggestion" button: the suggestion becomes the draft and is cleared. */
    method UseSuggestion()
      modifies this
      ensures replyContent == old(suggestedReply) && suggestedReply == ""
      ensures ticket == old(ticket) && aiSuggestedTags == old(aiSuggestedTags) && isUpdating == old(isUpdating)
    {
      replyContent := suggestedReply;
      suggestedReply := "";
    }
  }
}
