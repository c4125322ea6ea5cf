// Provider-neutral mail, the observation inferred from it, and the actions the
// policy may take on it (app/copilot/providers/base.py, app/core/models.py).
module Mail {
  import opened Prelude

  datatype Priority = Low | Medium | High
  datatype RiskTag = NoRisk | Legal | Security | Ops | Finance
  datatype SenderRole = Client | Internal | Vendor | Unknown
  datatype Label = Spam | Normal | Urgent
  datatype ActionType = Prioritize | Classify | Reply | Escalate | Defer

  datatype FetchedMessage = FetchedMessage(
    providerId: string, threadId: string, sender: string, senderName: string,
    subject: string, body: string)

  datatype Email = Email(
    id: string, sender: string, senderRole: SenderRole, subject: string, body: string,
    priorityHint: Priority, deadlineMinutes: int, businessValue: real, riskTag: RiskTag)

  datatype Observation = Observation(emails: seq<Email>, remainingInterruptions: int)

  datatype Action = Action(
    kind: ActionType, emailId: Option<string>, labelled: Option<Label>,
    content: Option<string>, priorityOrder: seq<string>, escalateTo: Option<string>)

  function LabelName(verdict: Label): string {
    match verdict
    case Spam => "spam"
    case Normal => "normal"
    case Urgent => "urgent"
  }

  function TypeName(kind: ActionType): string {
    match kind
    case Prioritize => "prioritize"
    case Classify => "classify"
    case Reply => "reply"
    case Escalate => "escalate"
    case Defer => "defer"
  }

  /** The risk tags that route a message to a person. */
  predicate Grave(tag: RiskTag) { tag.Legal? || tag.Security? }

  function EscalationRoleFor(tag: RiskTag): string {
    if tag.Legal? then "legal_team" else "chief_of_staff"
  }
}
