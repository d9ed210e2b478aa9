/** The fields of the `User` record that the star, report and ban logic
    reads and writes, with their schema defaults and minimums. */
module Users {
  import opened Base

  /** `banDuration` of a history entry: '24h' or '7d'. */
  datatype BanDuration = Day | Week

  /** The three reason texts the auto-ban writes into `banReason`. */
  datatype BanReason =
    | ThreeReports          // 'Three reports received for violating community guidelines'
    | ThreeDayBansThisWeek  // 'Three 24-hour bans within one week'
    | ProbationViolation    // 'Multiple violations during probation period'

  /** One `banHistory` entry; all four fields are required. */
  datatype BanRecord = BanRecord(bannedAt: int, duration: BanDuration, reason: BanReason, reportCount: int)

  datatype User = User(
    stars: int,
    reportCount: int,
    reportsGiven: int,
    isBanned: bool,
    banExpiresAt: Option<int>,
    banReason: Option<BanReason>,
    weeklyBanCount: int,
    weeklyBanResetDate: Option<int>,
    probationExpiresAt: Option<int>,
    banHistory: seq<BanRecord>,
    lastReportDate: Option<int>)

  const DEFAULT_STARS: int := 10

  /** The stored label of a ban duration. */
  function DurationName(d: BanDuration): string {
    match d
    case Day => "24h"
    case Week => "7d"
  }

  /** Reads a stored `banDuration`; anything outside the enum is rejected. */
  function ParseDuration(s: string): (r: Option<BanDuration>)
    ensures r.Some? ==> DurationName(r.value) == s
    ensures forall d :: s == DurationName(d) ==> r == Some(d)
  {
    if s == "24h" then Some(Day)
    else if s == "7d" then Some(Week)
    else None
  }

  /** A freshly registered user: every field at its schema default. */
  function NewUser(): User {
    User(DEFAULT_STARS, 0, 0, false, None, None, 0, None, None, [], None)
  }

  /** The record is one the schema accepts and the ban logic keeps:
      counters at or above their minimum of 0, the weekly ban count below
      the 7-day threshold's reach, a ban expiry and reason present exactly
      while banned, every history entry written with a count of 3, and a
      probation date only after a 24-hour ban. */
  predicate WellFormed(u: User) {
    && u.stars >= 0
    && u.reportCount >= 0
    && u.reportsGiven >= 0
    && 0 <= u.weeklyBanCount <= 2
    && (u.isBanned <==> u.banExpiresAt.Some?)
    && (u.isBanned <==> u.banReason.Some?)
    && (forall k :: 0 <= k < |u.banHistory| ==> u.banHistory[k].reportCount == 3)
    && (u.probationExpiresAt.Some? ==>
          |u.banHistory| > 0 && u.banHistory[|u.banHistory| - 1].duration == Day)
  }

  /** A new user has 10 stars, no reports, no ban and an empty history, and
      is well formed. */
  lemma NewUserDefaults()
    ensures WellFormed(NewUser())
    ensures NewUser().stars == 10 && !NewUser().isBanned
    ensures NewUser().reportCount == 0 && NewUser().reportsGiven == 0 && NewUser().weeklyBanCount == 0
    ensures NewUser().banExpiresAt.None? && NewUser().banReason.None?
    ensures NewUser().weeklyBanResetDate.None? && NewUser().probationExpiresAt.None?
    ensures NewUser().banHistory == []
    ensures NewUser().lastReportDate.None?
  {
  }
}
