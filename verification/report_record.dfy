/** The `Report` record: who reported whom, why, and what the auto-ban did. */
module Reports {
  import opened Base

  /** The `reason` enum of a report. */
  datatype Reason = Harassment | Abuse | Spam | Inappropriate | Other

  /** The `actionTaken` enum of a report; a new report has `NoAction`. */
  datatype Action = NoAction | Warning | DayBan | WeekBan

  /** One report document; both user ids and the reason are required. */
  datatype Report = Report(
    reporterId: UserId,
    reportedUserId: UserId,
    reason: Reason,
    actionTaken: Action,
    createdAt: int)

  function ReasonName(r: Reason): string {
    match r
    case Harassment => "harassment"
    case Abuse => "abuse"
    case Spam => "spam"
    case Inappropriate => "inappropriate"
    case Other => "other"
  }

  function ActionName(a: Action): string {
    match a
    case NoAction => "none"
    case Warning => "warning"
    case DayBan => "24h_ban"
    case WeekBan => "7d_ban"
  }

  /** Enum validation of `reason`: exactly the five listed strings are
      accepted, each as the reason it names. */
  function ParseReason(s: string): (r: Option<Reason>)
    ensures r.Some? ==> ReasonName(r.value) == s
    ensures forall x :: s == ReasonName(x) ==> r == Some(x)
  {
    if s == "harassment" then Some(Harassment)
    else if s == "abuse" then Some(Abuse)
    else if s == "spam" then Some(Spam)
    else if s == "inappropriate" then Some(Inappropriate)
    else if s == "other" then Some(Other)
    else None
  }

  /** Enum validation of `actionTaken`: exactly the four listed strings. */
  function ParseAction(s: string): (r: Option<Action>)
    ensures r.Some? ==> ActionName(r.value) == s
    ensures forall x :: s == ActionName(x) ==> r == Some(x)
  {
    if s == "none" then Some(NoAction)
    else if s == "warning" then Some(Warning)
    else if s == "24h_ban" then Some(DayBan)
    else if s == "7d_ban" then Some(WeekBan)
    else None
  }

  /** `Report.create({ reporterId, reportedUserId, reason })`: the action
      takes its default. */
  function NewReport(reporter: UserId, reported: UserId, reason: Reason, now: int): Report {
    Report(reporter, reported, reason, NoAction, now)
  }
}
