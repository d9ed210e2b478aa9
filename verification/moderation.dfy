/** The report controller: counting reports, the automatic ban that three
    reports trigger, and the ban status a user can read.

    Bans escalate. The third report against a user bans them for 24 hours
    and counts one weekly ban. When the user already has two weekly bans in
    the current week, or is on probation, the ban lasts 7 days instead and
    resets the weekly count. The first 24-hour ban after a 7-day ban starts
    a 14-day probation. A ban whose expiry has passed is cleared lazily, the
    next time a report or a status request touches the user. */
module Moderation {
  import opened Base
  import opened Users
  import opened Reports

  const WEEK_MS: int := 7 * DAY_MS
  const DAY_BAN_MS: int := 24 * HOUR_MS
  const WEEK_BAN_MS: int := 7 * DAY_MS
  const PROBATION_MS: int := 14 * DAY_MS

  /** Reports that trigger a ban. */
  const BAN_THRESHOLD: int := 3
  /** Weekly 24-hour bans after which the next ban lasts 7 days. */
  const WEEKLY_BAN_LIMIT: int := 2
  /** Reports one user may file per day. */
  const DAILY_REPORT_LIMIT: int := 3

  /** The weekly window is unset or already over. */
  predicate WeekOver(u: User, now: int) {
    u.weeklyBanResetDate.None? || u.weeklyBanResetDate.value < now
  }

  /** `checkAndResetWeeklyBans`: a new weekly window starts when the old one
      is unset or over; otherwise nothing changes. */
  function ResetWeeklyBans(u: User, now: int): (r: User)
    ensures WeekOver(u, now) ==>
      r.weeklyBanCount == 0 && r.weeklyBanResetDate == Some(now + WEEK_MS)
    ensures !WeekOver(u, now) ==> r == u
    ensures !WeekOver(r, now)
    ensures r == u.(weeklyBanCount := r.weeklyBanCount, weeklyBanResetDate := r.weeklyBanResetDate)
    ensures WellFormed(u) ==> WellFormed(r)
  {
    if WeekOver(u, now) then u.(weeklyBanCount := 0, weeklyBanResetDate := Some(now + WEEK_MS))
    else u
  }

  /** `isInProbation`: a probation date is set and still ahead. */
  predicate InProbation(u: User, now: int) {
    u.probationExpiresAt.Some? && now < u.probationExpiresAt.value
  }

  /** The user is marked banned but the ban's expiry has passed. */
  predicate BanLapsed(u: User, now: int) {
    u.isBanned && u.banExpiresAt.Some? && u.banExpiresAt.value < now
  }

  /** Clearing a lapsed ban: the ban, its expiry and reason go, and the
      report count restarts at 0. Any other user is left alone. */
  function ClearExpiredBan(u: User, now: int): (r: User)
    ensures BanLapsed(u, now) ==>
      !r.isBanned && r.banExpiresAt.None? && r.banReason.None? && r.reportCount == 0
    ensures !BanLapsed(u, now) ==> r == u
    ensures !BanLapsed(r, now)
    ensures r == u.(isBanned := r.isBanned, banExpiresAt := r.banExpiresAt,
                    banReason := r.banReason, reportCount := r.reportCount)
    ensures WellFormed(u) ==> WellFormed(r)
  {
    if BanLapsed(u, now) then
      u.(isBanned := false, banExpiresAt := None, banReason := None, reportCount := 0)
    else u
  }

  /** The two steps every ban decision and status request starts with. */
  function Prepare(u: User, now: int): User {
    ResetWeeklyBans(ClearExpiredBan(u, now), now)
  }

  /** The object `applyAutoBan` returns. The 24-hour form also reports the
      weekly count and whether a probation date is set. */
  datatype BanOutcome =
    | NotBanned
    | WeekBanned(expiresAt: int, reason: BanReason)
    | DayBanned(expiresAt: int, reason: BanReason, weeklyBanCount: int, inProbation: bool)

  /** The last history entry records a 7-day ban. */
  predicate LastBanWasWeek(h: seq<BanRecord>) {
    |h| > 0 && h[|h| - 1].duration == Week
  }

  /** `applyAutoBan` at time `now`. */
  function ApplyAutoBan(u: User, now: int): (r: Step<User, BanOutcome>)
    ensures var p := Prepare(u, now);
      r.reply.NotBanned? <==> p.reportCount < BAN_THRESHOLD
    ensures var p := Prepare(u, now);
      r.reply.WeekBanned? <==>
        p.reportCount >= BAN_THRESHOLD && (p.weeklyBanCount >= WEEKLY_BAN_LIMIT || InProbation(u, now))
    // no ban: the preparatory steps are all that happened
    ensures r.reply.NotBanned? ==> r.state == Prepare(u, now)
    // any ban: banned until the reported expiry, the count restarts, one history entry
    ensures !r.reply.NotBanned? ==>
      && r.state.isBanned
      && r.state.banExpiresAt == Some(r.reply.expiresAt)
      && r.state.banReason == Some(r.reply.reason)
      && r.state.reportCount == 0
      && r.state.banHistory == u.banHistory +
           [BanRecord(now, if r.reply.WeekBanned? then Week else Day, r.reply.reason, 3)]
    ensures r.reply.WeekBanned? ==>
      && r.reply.expiresAt == now + WEEK_BAN_MS
      && r.reply.reason == (if InProbation(u, now) then ProbationViolation else ThreeDayBansThisWeek)
      && r.state.weeklyBanCount == 0
      && r.state.weeklyBanResetDate.None?
      && r.state.probationExpiresAt.None?
    ensures r.reply.DayBanned? ==>
      && r.reply.expiresAt == now + DAY_BAN_MS
      && r.reply.reason == ThreeReports
      && r.state.weeklyBanCount == Prepare(u, now).weeklyBanCount + 1
      && r.reply.weeklyBanCount == r.state.weeklyBanCount
      && r.state.weeklyBanResetDate == Prepare(u, now).weeklyBanResetDate
      && r.state.probationExpiresAt ==
           (if LastBanWasWeek(u.banHistory) then Some(now + PROBATION_MS) else u.probationExpiresAt)
      && r.reply.inProbation == r.state.probationExpiresAt.Some?
    // nothing outside the ban fields changes
    ensures r.state.stars == u.stars && r.state.reportsGiven == u.reportsGiven
    ensures r.state.lastReportDate == u.lastReportDate
    // the history only grows, by at most one entry
    ensures u.banHistory <= r.state.banHistory && |r.state.banHistory| <= |u.banHistory| + 1
    ensures 0 <= u.weeklyBanCount <= 2 ==> 0 <= r.state.weeklyBanCount <= 2
    ensures WellFormed(u) ==> WellFormed(r.state)
  {
    var p := Prepare(u, now);
    if p.reportCount < BAN_THRESHOLD then Step(p, NotBanned)
    else
      var probation := InProbation(p, now);
      if p.weeklyBanCount >= WEEKLY_BAN_LIMIT || probation then
        var why := if probation then ProbationViolation else ThreeDayBansThisWeek;
        var expires := now + WEEK_BAN_MS;
        var banned := p.(
          isBanned := true,
          banExpiresAt := Some(expires),
          banReason := Some(why),
          reportCount := 0,
          weeklyBanCount := 0,
          weeklyBanResetDate := None,
          probationExpiresAt := None,
          banHistory := p.banHistory + [BanRecord(now, Week, why, 3)]);
        Step(banned, WeekBanned(expires, why))
      else
        var expires := now + DAY_BAN_MS;
        var probationEnd :=
          if LastBanWasWeek(p.banHistory) then Some(now + PROBATION_MS) else p.probationExpiresAt;
        var banned := p.(
          isBanned := true,
          banExpiresAt := Some(expires),
          banReason := Some(ThreeReports),
          reportCount := 0,
          weeklyBanCount := p.weeklyBanCount + 1,
          probationExpiresAt := probationEnd,
          banHistory := p.banHistory + [BanRecord(now, Day, ThreeReports, 3)]);
        Step(banned, DayBanned(expires, ThreeReports, banned.weeklyBanCount, probationEnd.Some?))
  }

  /** The action a report records for the ban its submission caused. */
  function ActionFor(b: BanOutcome): (a: Action)
    ensures a == NoAction <==> b.NotBanned?
    ensures a == DayBan <==> b.DayBanned?
    ensures a == WeekBan <==> b.WeekBanned?
  {
    match b
    case NotBanned => NoAction
    case WeekBanned(_, _) => WeekBan
    case DayBanned(_, _, _, _) => DayBan
  }

  /** The users and the report documents the controller writes. */
  datatype ReportDb = ReportDb(users: map<UserId, User>, reports: seq<Report>)

  datatype ReportError =
    | MissingFields         // 400 'Missing required fields'
    | SelfReport            // 400 'Cannot report yourself'
    | DailyLimitReached     // 429 daily report limit
    | InvalidReason         // the `reason` enum rejects the value at `Report.create`
    | ReporterMissing       // the reporter's record is gone: `reporter.reportsGiven` throws
    | ReportedUserNotFound  // 404 'Reported user not found'
    | UserNotFound          // 404 'User not found', from the status request

  /** The errors raised before anything is written. */
  predicate RejectedUpFront(e: ReportError) {
    e.MissingFields? || e.SelfReport? || e.DailyLimitReached? || e.InvalidReason?
  }

  /** The reply to a successful report. */
  datatype Submission = Submission(report: Report, reportCount: int, ban: BanOutcome)

  /** Every user in the map is well formed. */
  predicate AllWellFormed(users: map<UserId, User>) {
    forall k :: k in users ==> WellFormed(users[k])
  }

  /** A report that passed validation: whom it is against and why. */
  datatype ValidReport = ValidReport(target: UserId, reason: Reason)

  /** The checks `submitReport` makes before writing anything, in order:
      both fields present, not a self-report, under the daily limit, and a
      reason the enum accepts. */
  function Validate(reporter: UserId, reported: Option<string>, reason: Option<string>,
                    reportsToday: int): (r: Result<ValidReport, ReportError>)
    ensures !Present(reported) || !Present(reason) ==> r == Err(MissingFields)
    ensures Present(reported) && Present(reason) && reported.value == reporter ==> r == Err(SelfReport)
    ensures (Present(reported) && Present(reason) && reported.value != reporter &&
             reportsToday >= DAILY_REPORT_LIMIT) ==> r == Err(DailyLimitReached)
    ensures r == Err(InvalidReason) <==>
      Present(reported) && Present(reason) && reported.value != reporter &&
      reportsToday < DAILY_REPORT_LIMIT && ParseReason(reason.value).None?
    ensures r.Err? ==> RejectedUpFront(r.error)
    // a report passing every check is accepted
    ensures r.Ok? <==>
      Present(reported) && Present(reason) && reported.value != reporter &&
      reportsToday < DAILY_REPORT_LIMIT && ParseReason(reason.value).Some?
    ensures r.Ok? ==>
      && Present(reported) && reported.value == r.value.target && r.value.target != reporter
      && reason == Some(ReasonName(r.value.reason))
      && reportsToday < DAILY_REPORT_LIMIT
  {
    if !Present(reported) || !Present(reason) then Err(MissingFields)
    else if reported.value == reporter then Err(SelfReport)
    else if reportsToday >= DAILY_REPORT_LIMIT then Err(DailyLimitReached)
    else match ParseReason(reason.value)
      case None => Err(InvalidReason)
      case Some(why) => Ok(ValidReport(reported.value, why))
  }

  /** The reported user after one more report at `now`, before the ban check. */
  function Counted(u: User, now: int): (r: User)
    ensures r.reportCount == u.reportCount + 1 && r.lastReportDate == Some(now)
    ensures WellFormed(u) ==> WellFormed(r)
  {
    u.(reportCount := u.reportCount + 1, lastReportDate := Some(now))
  }

  /** The reporter's side of a report: one more report given. */
  function Credit(users: map<UserId, User>, reporter: UserId): (r: map<UserId, User>)
    requires reporter in users
    ensures r.Keys == users.Keys
    ensures r[reporter].reportsGiven == users[reporter].reportsGiven + 1
    ensures r[reporter] == users[reporter].(reportsGiven := r[reporter].reportsGiven)
    ensures forall k :: k in users && k != reporter ==> r[k] == users[k]
    ensures AllWellFormed(users) ==> AllWellFormed(r)
  {
    users[reporter := users[reporter].(reportsGiven := users[reporter].reportsGiven + 1)]
  }

  /** The reported user's side of a report: one more report counted at
      `now`, then the ban check, with every other user left alone. */
  function ReceiveReport(users: map<UserId, User>, target: UserId, now: int)
    : (r: Step<map<UserId, User>, BanOutcome>)
    requires target in users
    ensures r.state.Keys == users.Keys
    ensures forall k :: k in users && k != target ==> r.state[k] == users[k]
    ensures r.reply == ApplyAutoBan(Counted(users[target], now), now).reply
    // the ban, if any, is written onto the reported user's own record
    ensures r.state[target] == ApplyAutoBan(Counted(users[target], now), now).state
    ensures r.state[target].lastReportDate == Some(now)
    ensures r.reply.NotBanned? && !BanLapsed(users[target], now) ==>
      r.state[target].reportCount == users[target].reportCount + 1
    ensures BanLapsed(users[target], now) ==> r.state[target].reportCount == 0 && r.reply.NotBanned?
    ensures !r.reply.NotBanned? ==> r.state[target].reportCount == 0
    ensures forall k :: k in users ==> users[k].banHistory <= r.state[k].banHistory
    ensures AllWellFormed(users) ==> AllWellFormed(r.state)
  {
    var ban := ApplyAutoBan(Counted(users[target], now), now);
    Step(users[target := ban.state], ban.reply)
  }

  /** The writes of `submitReport` once the report is valid: the report
      document, then the reporter's count, then the reported user's count
      and the ban check. */
  function FileReport(db: ReportDb, reporter: UserId, v: ValidReport, now: int)
    : (r: Step<ReportDb, Result<Submission, ReportError>>)
    requires v.target != reporter
    ensures r.state.users.Keys == db.users.Keys
    // the report document exists whatever happens next
    ensures |r.state.reports| == |db.reports| + 1
    ensures r.state.reports[..|db.reports|] == db.reports
    ensures r.state.reports[|db.reports|] ==
      NewReport(reporter, v.target, v.reason, now).(actionTaken := r.state.reports[|db.reports|].actionTaken)
    ensures r.reply.Err? ==> r.state.reports[|db.reports|].actionTaken == NoAction
    ensures r.reply.Err? ==> r.reply.error == ReporterMissing || r.reply.error == ReportedUserNotFound
    ensures r.reply == Err(ReporterMissing) <==> reporter !in db.users
    ensures r.reply == Err(ReporterMissing) ==> r.state.users == db.users
    // the reporter is credited before the reported user is looked up
    ensures r.reply != Err(ReporterMissing) ==>
      && reporter in db.users
      && r.state.users[reporter] == db.users[reporter].(reportsGiven := db.users[reporter].reportsGiven + 1)
    ensures r.reply == Err(ReportedUserNotFound) <==> reporter in db.users && v.target !in db.users
    // on success the reported user receives the report as `ReceiveReport` describes
    ensures r.reply.Ok? ==>
      && v.target in db.users
      && r.state.reports[|db.reports|] == r.reply.value.report
      && r.reply.value.report.actionTaken == ActionFor(r.reply.value.ban)
      && r.reply.value.reportCount == r.state.users[v.target].reportCount
      && Step(r.state.users, r.reply.value.ban) == ReceiveReport(Credit(db.users, reporter), v.target, now)
    // users other than the two parties are untouched
    ensures forall k :: k in db.users && k != reporter && k != v.target ==> r.state.users[k] == db.users[k]
    ensures forall k :: k in db.users ==> db.users[k].banHistory <= r.state.users[k].banHistory
    ensures AllWellFormed(db.users) ==> AllWellFormed(r.state.users)
  {
    var report := NewReport(reporter, v.target, v.reason, now);
    var filed := db.(reports := db.reports + [report]);
    if reporter !in db.users then Step(filed, Err(ReporterMissing))
    else
      var users1 := Credit(db.users, reporter);
      if v.target !in db.users then Step(filed.(users := users1), Err(ReportedUserNotFound))
      else
        var judged := ReceiveReport(users1, v.target, now);
        var recorded := report.(actionTaken := ActionFor(judged.reply));
        Step(ReportDb(judged.state, db.reports + [recorded]),
             Ok(Submission(recorded, judged.state[v.target].reportCount, judged.reply)))
  }

  /** `submitReport` by `reporter` at time `now`. `reportsToday` is the
      number of reports the reporter filed since local midnight. */
  function SubmitReport(db: ReportDb, reporter: UserId, reported: Option<string>, reason: Option<string>,
                        reportsToday: int, now: int): (r: Step<ReportDb, Result<Submission, ReportError>>)
    // a rejected report writes nothing
    ensures Validate(reporter, reported, reason, reportsToday).Err? ==>
      r.state == db && r.reply == Err(Validate(reporter, reported, reason, reportsToday).error)
    // an accepted one files exactly one report document, whatever happens next
    ensures Validate(reporter, reported, reason, reportsToday).Ok? ==>
      && |r.state.reports| == |db.reports| + 1
      && r.state.reports[..|db.reports|] == db.reports
    ensures r.state.users.Keys == db.users.Keys
    ensures forall k :: k in db.users ==> db.users[k].banHistory <= r.state.users[k].banHistory
    ensures AllWellFormed(db.users) ==> AllWellFormed(r.state.users)
  {
    match Validate(reporter, reported, reason, reportsToday)
    case Err(e) => Step(db, Err(e))
    case Ok(v) => FileReport(db, reporter, v, now)
  }

  /** What `getBanStatus` shows a user about themselves. */
  datatype BanStatus = BanStatus(
    isBanned: bool,
    banExpiresAt: Option<int>,
    banReason: Option<BanReason>,
    reportCount: int,
    weeklyBanCount: int,
    inProbation: bool,
    probationExpiresAt: Option<int>,
    reportsGiven: int)

  /** `getBanStatus` for user `id` at time `now`: clears a lapsed ban and an
      old weekly window, saves, and shows the result. */
  function GetBanStatus(users: map<UserId, User>, id: UserId, now: int): (r: Result<Step<map<UserId, User>, BanStatus>, ReportError>)
    ensures r.Err? <==> id !in users
    ensures r.Err? ==> r.error == UserNotFound
    ensures r.Ok? ==>
      && r.value.state.Keys == users.Keys
      && (forall k :: k in users && k != id ==> r.value.state[k] == users[k])
      && var v := r.value.reply;
         var u' := r.value.state[id];
         // the view is the saved record, and never shows a lapsed ban as active
         && v.isBanned == u'.isBanned && v.banExpiresAt == u'.banExpiresAt
         && v.reportCount == u'.reportCount && v.weeklyBanCount == u'.weeklyBanCount
         && !BanLapsed(u', now) && !WeekOver(u', now)
         && v.inProbation == InProbation(users[id], now)
         && v.probationExpiresAt == users[id].probationExpiresAt
         && v.reportsGiven == users[id].reportsGiven
         && u'.banHistory == users[id].banHistory
         && u'.stars == users[id].stars
         // the saved record is the stored one with only a lapsed ban and an
         // ended weekly window cleared
         && u' == Prepare(users[id], now)
         && v.banReason == u'.banReason
    ensures r.Ok? && AllWellFormed(users) ==> AllWellFormed(r.value.state)
  {
    if id !in users then Err(UserNotFound)
    else
      var u' := Prepare(users[id], now);
      Ok(Step(users[id := u'], BanStatus(u'.isBanned, u'.banExpiresAt, u'.banReason, u'.reportCount,
                                         u'.weeklyBanCount, InProbation(u', now), u'.probationExpiresAt,
                                         u'.reportsGiven)))
  }

  /** The first 24-hour ban after a 7-day ban starts a probation that lasts
      exactly 14 days from the ban. */
  lemma ProbationFollowsWeekBan(u: User, now: int, t: int)
    requires ApplyAutoBan(u, now).reply.DayBanned?
    requires LastBanWasWeek(u.banHistory)
    ensures InProbation(ApplyAutoBan(u, now).state, t) <==> t < now + PROBATION_MS
    ensures ApplyAutoBan(u, now).reply.inProbation
  {
  }

  /** A weekly window still open keeps its count: two 24-hour bans in it
      make the next ban in it a 7-day one. */
  lemma ThirdBanInWindowLastsAWeek(u: User, now: int)
    requires u.weeklyBanResetDate.Some? && now <= u.weeklyBanResetDate.value
    requires u.weeklyBanCount == 2
    requires Prepare(u, now).reportCount >= BAN_THRESHOLD
    ensures ApplyAutoBan(u, now).reply.WeekBanned?
    ensures ApplyAutoBan(u, now).state.banExpiresAt == Some(now + WEEK_BAN_MS)
  {
  }

  /** A request to the report controller. */
  datatype ModerationRequest =
    | Submit(reporter: UserId, reported: Option<string>, reason: Option<string>, reportsToday: int, at: int)
    | CheckBan(user: UserId, at: int)

  /** The stored state after one request. */
  function Serve(db: ReportDb, request: ModerationRequest): ReportDb {
    match request
    case Submit(who, whom, why, today, at) => SubmitReport(db, who, whom, why, today, at).state
    case CheckBan(who, at) =>
      match GetBanStatus(db.users, who, at)
      case Ok(step) => db.(users := step.state)
      case Err(_) => db
  }

  /** The stored state after serving `reqs` in order. */
  function Run(db: ReportDb, reqs: seq<ModerationRequest>): ReportDb
    decreases |reqs|
  {
    if reqs == [] then db else Run(Serve(db, reqs[0]), reqs[1..])
  }

  /** Over any sequence of report and status requests: no user appears or
      disappears, reports are only ever added, every user's ban history is
      only ever extended, and well-formed users stay well formed, so weekly
      ban counts stay within 0..2. */
  lemma {:induction false} RunOnlyGrowsHistory(db: ReportDb, reqs: seq<ModerationRequest>)
    ensures Run(db, reqs).users.Keys == db.users.Keys
    ensures db.reports <= Run(db, reqs).reports
    ensures forall k :: k in db.users ==> db.users[k].banHistory <= Run(db, reqs).users[k].banHistory
    ensures AllWellFormed(db.users) ==> AllWellFormed(Run(db, reqs).users)
    decreases |reqs|
  {
    if reqs != [] {
      var next := Serve(db, reqs[0]);
      assert next.users.Keys == db.users.Keys;
      assert db.reports <= next.reports;
      assert forall k :: k in db.users ==> db.users[k].banHistory <= next.users[k].banHistory;
      RunOnlyGrowsHistory(next, reqs[1..]);
    }
  }
}
