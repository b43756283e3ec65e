/** Turning an incoming email into a ticket draft: the customer name is derived from the
    sender, the language model is asked for the draft, and the fields it leaves out or empty
    are filled with defaults. The model is a parameter: a function from the prompt's input
    to its output, `None` when it returns none. */
module EmailFlow {
  import opened Wrappers
  import opened Types
  import Text

  /** The email: subject, body, sender address and optional name, and the time it came in. */
  datatype EmailInput = EmailInput(subject: string, body: string, fromEmail: string, fromName: Option<string>, receivedAt: string)

  /** The draft the model returns. Channel and status may be missing; `None` also stands for
      a value the model leaves out where the schema requires one. */
  datatype EmailOutput = EmailOutput(
    title: string,
    description: string,
    customerName: string,
    customerEmail: string,
    priority: Option<Priority>,
    channel: Option<Channel>,
    status: Option<TicketStatus>,
    suggestedTags: Option<seq<string>>)

  const NoOutputError: string := "AI failed to process the email into a ticket structure."

  /** `input.fromName || input.fromEmail.split('@')[0]`: the sender's name when it is given and
      not empty, otherwise the part of the address before its first '@'. It is empty exactly
      when there is no name and the address is empty or starts with '@'. */
  function CustomerName(input: EmailInput): (r: string)
    ensures input.fromName.Some? && input.fromName.value != "" ==> r == input.fromName.value
    ensures input.fromName.None? || input.fromName.value == "" ==>
      r <= input.fromEmail && '@' !in r && (|r| < |input.fromEmail| ==> input.fromEmail[|r|] == '@')
    ensures r == "" <==> (input.fromName.None? || input.fromName.value == "") && (input.fromEmail == "" || input.fromEmail[0] == '@')
  {
    if input.fromName.Some? && input.fromName.value != "" then input.fromName.value
    else Text.BeforeFirst(input.fromEmail, '@')
  }

  /** The prompt's input: the email with the derived name as the sender's name. */
  function PromptInput(input: EmailInput): (r: EmailInput)
    ensures r.fromName == Some(CustomerName(input))
    ensures r.subject == input.subject && r.body == input.body && r.fromEmail == input.fromEmail && r.receivedAt == input.receivedAt
  {
    input.(fromName := Some(CustomerName(input)))
  }

  /** A string field that falls back to `fallback` when empty (`s || fallback`). */
  function OrElse(s: string, fallback: string): string
  {
    if s != "" then s else fallback
  }

  /** The returned draft: the model's draft with the derived name for an empty customer name,
      the sender's address for an empty customer address, and "medium", "email" and "new" for
      a missing priority, channel and status. */
  function WithDefaults(output: EmailOutput, name: string, email: string): (r: EmailOutput)
    ensures r.title == output.title && r.description == output.description && r.suggestedTags == output.suggestedTags
    ensures r.customerName == (if output.customerName == "" then name else output.customerName)
    ensures r.customerEmail == (if output.customerEmail == "" then email else output.customerEmail)
    ensures r.priority.Some? && r.channel.Some? && r.status.Some?
    ensures output.priority.None? ==> r.priority == Some(Medium)
    ensures output.channel.None? ==> r.channel == Some(Email)
    ensures output.status.None? ==> r.status == Some(TicketStatus.New)
    ensures output.priority.Some? ==> r.priority == output.priority
    ensures output.channel.Some? ==> r.channel == output.channel
    ensures output.status.Some? ==> r.status == output.status
  {
    output.(
      customerName := OrElse(output.customerName, name),
      customerEmail := OrElse(output.customerEmail, email),
      priority := Some(output.priority.GetOr(Medium)),
      channel := Some(output.channel.GetOr(Email)),
      status := Some(output.status.GetOr(TicketStatus.New)))
  }

  /** Filling the defaults in twice changes nothing more. */
  lemma WithDefaultsIdempotent(output: EmailOutput, name: string, email: string)
    ensures WithDefaults(WithDefaults(output, name, email), name, email) == WithDefaults(output, name, email)
  {
  }

  /** `createTicketFromEmailFlow`: the error when the model returns nothing, otherwise the
      model's draft for the prompt input, with the defaults filled in. */
  function CreateTicketFromEmail(input: EmailInput, model: EmailInput -> Option<EmailOutput>): (r: Result<EmailOutput>)
    ensures r.Err? <==> model(PromptInput(input)).None?
    ensures r.Err? ==> r.message == NoOutputError
    ensures r.Ok? ==> r.value == WithDefaults(model(PromptInput(input)).value, CustomerName(input), input.fromEmail)
  {
    match model(PromptInput(input))
    case None => Err(NoOutputError)
    case Some(output) => Ok(WithDefaults(output, CustomerName(input), input.fromEmail))
  }

  /** A draft the flow returns has a priority, a channel and a status; its customer address is
      never empty when the sender's is not, and its customer name is never empty when the
      derived name is not. */
  lemma DraftComplete(input: EmailInput, model: EmailInput -> Option<EmailOutput>)
    requires CreateTicketFromEmail(input, model).Ok?
    ensures CreateTicketFromEmail(input, model).value.priority.Some?
    ensures CreateTicketFromEmail(input, model).value.channel.Some?
    ensures CreateTicketFromEmail(input, model).value.status.Some?
    ensures input.fromEmail != "" ==> CreateTicketFromEmail(input, model).value.customerEmail != ""
    ensures CustomerName(input) != "" ==> CreateTicketFromEmail(input, model).value.customerName != ""
  {
  }
}
