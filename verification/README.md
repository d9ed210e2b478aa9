# Anonymous call matching: queue, moderation, call rewards and stars

This project models four pieces of the backend of an anonymous one-on-one
calling service. Each piece is modelled as pure state transitions over plain
records. The clock is an explicit `now` in milliseconds, and the database
collections are in-memory sequences and maps.

- **Matchmaking queue** (`base.dfy`, `call_queue.dfy`, `matchmaking.dfy`).
  The `CallQueue` collection is a sequence of entries in insertion order.
  - `Join` returns the caller's existing entry if there is one.
  - Otherwise it pairs the caller with the oldest waiting entry that belongs
    to someone else. Both entries become `matched`, each points at the
    other, and both share one call id.
  - If no such entry exists, `Join` inserts a waiting entry.
  - `Leave` deletes the caller's entry, and `Status` only reads.
  - A TTL sweep removes entries 300 seconds after creation.
  - The `user_id` index is not unique. So "one entry per user"
    (`UniqueUsers`) is proved as an invariant that join, leave and the sweep
    keep. The store itself does not enforce it.
  - Symmetry of pairs is proved for any sequence of joins.
  - `LeaveStrandsPartner` shows that a leave breaks symmetry: the partner is
    left matched to someone who has no entry.
- **Report and auto-ban escalation** (`user_record.dfy`, `report_record.dfy`,
  `moderation.dfy`).
  - The weekly ban window and its reset.
  - Lazy clearing of lapsed bans.
  - A 24-hour ban at three reports. The ban lasts 7 days instead after two
    weekly bans, or when it falls during probation.
  - A 14-day probation after the first 24-hour ban that follows a 7-day ban.
  - The validation and write order of report submission, including the
    daily reporter limit.
  - The ban-status request.
  - `WellFormed` gathers the record invariants: counters are non-negative,
    the weekly count stays in 0..2, and the ban expiry and reason are set
    exactly while the user is banned. It is proved preserved by every
    request.
- **Call-ended webhook** (`stream_webhook.dfy`).
  - The dedup memory maps call keys to the time each call was processed.
  - A call of at least 300 seconds earns every listed participant one star
    per listing.
  - A call shorter than 60 seconds costs the user who ended it one star, and
    only if their balance is above zero.
  - A sweep forgets calls processed more than ten minutes ago.
- **Star balance** (`stars.dfy`). These are the validated add and subtract of
  `increaseStar` and `decreaseStar`.

There is no unique index on `user_id`. A join is the code's read-then-write,
taken as one sequential step.

Every reading of the clock within one request is modelled as the same
instant `now`.

## Model

| member | source | states |
|---|---|---|
| CallQueue.FindFrom | controller/matchmaking.controller.js:11 | From a given position on, the result is the first entry owned by the user; it is absent exactly when no later entry is the user's |
| CallQueue.Find | controller/matchmaking.controller.js:85 | Looking a user up yields an entry the user owns, and yields nothing exactly when the user has no entry |
| CallQueue.Sweep | model/callQueue.models.js:31-32 | The TTL sweep removes exactly the entries with `createdAt + 300 s <= now`, whatever their status. Every other entry is kept as often as it occurred, so the sweep only deletes and never duplicates |
| CallQueue.SweepKeepsUnique | model/callQueue.models.js:28-32 | A sweep never produces two entries for one user |
| CallQueue.SweepIdempotent | model/callQueue.models.js:32 | A second sweep at the same instant removes nothing more |
| Matchmaking.OldestWaitingFrom | controller/matchmaking.controller.js:23-26 | The chosen entry is waiting, belongs to someone other than the caller, and is no younger than any such entry; among equally old ones it is the earliest inserted; none is chosen exactly when there is no such entry |
| Matchmaking.OldestWaiting | controller/matchmaking.controller.js:23-26 | Over the whole queue, the partner candidate is the oldest waiting entry of someone else, or none when no such entry exists |
| Matchmaking.MakeCallId | controller/matchmaking.controller.js:30 | The call id carries the join time and a prefix of the caller's id of length min(8, id length) |
| Matchmaking.Join | controller/matchmaking.controller.js:7-67 | An existing entry is returned and nothing is written. The caller pairs exactly when some other user's entry is waiting: the partner is never the caller and is the oldest such entry, the chosen entry and the caller's new entry point at each other with one shared call id, and every other entry is unchanged. Otherwise exactly one waiting entry with no partner and no call id is appended |
| Matchmaking.Leave | controller/matchmaking.controller.js:71-79 | Leave succeeds with or without an entry. It removes exactly one occurrence of the caller's first entry, if there is one, and nothing else. It keeps every other user's entry, including a partner still marked matched. When entries are unique, they stay unique and the caller is left with no entry |
| Matchmaking.Status | controller/matchmaking.controller.js:82-99 | The reply is `not_in_queue` exactly when the user has no entry; otherwise it is the user's own entry and that entry's status |
| Matchmaking.JoinKeepsOneEntryPerUser | controller/matchmaking.controller.js:11-59 | After any join the caller has an entry, and no user has two, provided none had two before |
| Matchmaking.AppendWaitingKeepsPairs | controller/matchmaking.controller.js:56-59 | Inserting a fresh waiting entry keeps every pair symmetric and every entry's status consistent with its partner and call-id fields |
| Matchmaking.PairingKeepsPairs | controller/matchmaking.controller.js:32-44 | Writing a new pair keeps every matched entry's partner pointing back with the same call id |
| Matchmaking.JoinKeepsPairsSymmetric | controller/matchmaking.controller.js:29-59 | Any single join keeps pairs symmetric and statuses consistent |
| Matchmaking.JoinsKeepQueueInvariant | controller/matchmaking.controller.js:7-67 | Over any sequence of joins alone: no user has two entries, and every matched entry's partner points back with the same call id |
| Matchmaking.RejoinIsIdempotent | controller/matchmaking.controller.js:11-20 | A second join by the same user writes nothing and returns the entry the first join produced |
| Matchmaking.LeaveThenStatus | controller/matchmaking.controller.js:71-99 | When no user has two entries, after a leave a status poll answers `not_in_queue`, and all other entries remain |
| Matchmaking.ExpiredEntryLeavesQueue | model/callQueue.models.js:32 | When no user has two entries, once a user's entry has outlived 300 s, after the sweep a status poll answers `not_in_queue` |
| Matchmaking.LeaveStrandsPartner | controller/matchmaking.controller.js:71-79 | Scenario: A waits, B pairs with A, then A leaves. B still reads `matched` with partner A, A reads `not_in_queue`, and the queue is no longer symmetric |
| Users.ParseDuration | model/user.models.js:70-74 | A stored ban duration is accepted only as `24h` or `7d`, and is read back as the duration it names |
| Users.NewUserDefaults | model/user.models.js:24-64 | A new user has 10 stars, zero counters, no ban, no dates and an empty history, and is well formed |
| Reports.ParseReason | model/report.models.js:14-18 | A report reason is accepted exactly when it is one of the five enum strings, and is read back as the reason it names |
| Reports.ParseAction | model/report.models.js:19-23 | An action is accepted exactly when it is `none`, `warning`, `24h_ban` or `7d_ban` |
| Moderation.InProbation | controller/report.controller.js:21-24 | A user is in probation exactly when a probation date is set and now is before it |
| Moderation.ResetWeeklyBans | controller/report.controller.js:8-18 | When the window is unset or over, the weekly count becomes 0 and the window ends 7 days from now; otherwise the user is unchanged. Afterwards the window is never over at `now`, no other field changes, and well-formedness is kept |
| Moderation.ClearExpiredBan | controller/report.controller.js:31-38 | A lapsed ban (banned, expiry before now) is cleared along with its expiry and reason, and the report count restarts at 0. Any other user is unchanged, and no lapsed ban remains afterwards |
| Moderation.ApplyAutoBan | controller/report.controller.js:27-120 | Below 3 reports after the lapsed-ban and weekly-window steps, no ban is applied and no ban field changes. A 7-day ban is applied exactly at 3 or more reports with 2 weekly bans or during probation: expiry now + 7 d, counts zeroed, window and probation cleared. Otherwise a 24-hour ban: expiry now + 24 h, weekly count + 1, and 14-day probation exactly when the last history entry was 7 d. Each ban appends one history entry and resets the report count. History only grows, the weekly count stays in 0..2, and stars and reports given are untouched |
| Moderation.ProbationFollowsWeekBan | controller/report.controller.js:87-95 | The first 24-hour ban after a 7-day ban puts the user in probation at exactly the instants before now + 14 days |
| Moderation.ThirdBanInWindowLastsAWeek | controller/report.controller.js:44-69 | Inside an open weekly window with two weekly bans, the next ban lasts 7 days |
| Moderation.ActionFor | controller/report.controller.js:177-180 | A report's action is `none` exactly without a ban, `24h_ban` exactly for a 24-hour ban, and `7d_ban` exactly for a 7-day ban |
| Moderation.Validate | controller/report.controller.js:127-155 | Checks run in order: missing `reportedUserId` or `reason`, then a self-report, then a fourth report of the day, then a reason outside the enum. A report is accepted exactly when it passes all four, and an accepted report names someone else and a valid reason |
| Moderation.Credit | controller/report.controller.js:157-159 | The reporter's `reportsGiven` grows by exactly 1, the rest of that record and every other user stay as they were, and well-formed users stay well formed |
| Moderation.ReceiveReport | controller/report.controller.js:168-175 | The reported user's stored record becomes the auto-ban's result on the counted record, so any ban is written onto it. `lastReportDate` becomes now, and the count grows by exactly 1 unless a lapsed ban's clearing or a new ban resets it to 0. The reply is the auto-ban outcome, ban histories only grow, no other user is touched, and well-formed users stay well formed |
| Moderation.FileReport | controller/report.controller.js:150-188 | The report document is written first. If the reporter's record is missing, nothing else changes. Otherwise the reporter is credited before the reported user is looked up, and a missing reported user then ends with 404. On success the users are exactly the credited users after the reported user receives the report, the stored report's action matches the ban applied, the reply's count is the stored one, and no third user is touched |
| Moderation.SubmitReport | controller/report.controller.js:123-189 | A report rejected by validation writes nothing. An accepted one files exactly one report document. No user appears or disappears, ban histories only grow, and well-formed users stay well formed |
| Moderation.GetBanStatus | controller/report.controller.js:192-226 | An unknown user gets 404. Otherwise the saved record is the stored one with only a lapsed ban and an ended weekly window cleared. An active ban and an open window are kept. The view shows the saved record, including its ban reason, and never shows a lapsed ban as active. Probation is read at now, and no other user changes |
| Moderation.RunOnlyGrowsHistory | controller/report.controller.js:123-226 | Over any sequence of report and status requests from any starting database: the set of users is fixed, reports are only added, and every ban history is only extended. Users that start well formed stay well formed |
| StreamWebhook.KeyOf | controller/streamWebhook.controller.js:35 | The dedup key is the call's `id` when it is a non-empty string, and `cid` otherwise, including an absent key when there is no call |
| StreamWebhook.ParticipantIds | controller/streamWebhook.controller.js:59 | Falsy participant ids are dropped: every id kept is non-empty, and there are no more ids than participants |
| StreamWebhook.Reward | controller/streamWebhook.controller.js:62-69 | Every existing user gains exactly as many stars as times their id is listed; no user appears, disappears or changes otherwise |
| StreamWebhook.Settle | controller/streamWebhook.controller.js:53-115 | At a duration of 300 s or more with a non-empty participant list, listed users gain stars and no one loses any. Below 60 s, with a user id, the ending user loses one star exactly when they exist and have more than 0. In every other case, including durations in [60, 300), nothing changes. Balances never go negative |
| StreamWebhook.HandleEvent | controller/streamWebhook.controller.js:20-116 | Other event types change nothing, not even the dedup map. A call already seen is a duplicate and changes nothing. A first-seen call is recorded at now and then settled; a missing duration counts as 0 |
| StreamWebhook.SweepProcessed | controller/streamWebhook.controller.js:10-17 | The sweep removes exactly the calls processed before now - 10 min and keeps every other call with its time |
| StreamWebhook.DuplicateUntilSwept | controller/streamWebhook.controller.js:10-51 | A processed call stays a duplicate until a sweep runs more than 10 min after it was processed; after such a sweep the same event is processed again |
| StreamWebhook.DistinctParticipantsGainOneStar | controller/streamWebhook.controller.js:61-69 | When participant ids do not repeat, each listed existing user gains exactly one star and every other user is unchanged |
| StreamWebhook.DistinctCountsOnce | controller/streamWebhook.controller.js:59-62 | In a list without repeats, each id occurs once or not at all |
| Stars.IncreaseStar | controller/user.controller.js:118-141 | A missing or non-positive amount is rejected with 400 and an unknown user with 404, both before any write. The request succeeds exactly when the amount is positive and the user exists, and then only the caller's balance changes, to balance + amount |
| Stars.DecreaseStar | controller/user.controller.js:143-169 | A missing or non-positive amount gets 400 and an unknown user 404. The request is refused as insufficient exactly when balance < amount, and succeeds in every other case. On success only the caller's balance changes, to balance - amount, which is at least 0 |
| Stars.AdjustmentsKeepUsersWellFormed | model/user.models.js:24-28 | Both adjustments keep every well-formed user well formed, in particular stars >= 0 |
| Stars.IncreaseThenDecreaseRestores | controller/user.controller.js:118-169 | For a non-negative balance, decreasing by the amount just added succeeds and restores the original balances |

## Left out

- Route wiring, authentication middleware, JWT signing, refresh tokens and
  cookies are left out. So are the music and topic controllers, logging, and
  HTTP response envelopes beyond a reply or error tag. None of them affects
  the modelled state.
- Concurrency is left out: every request is one sequential step. The code's
  join reads and then writes without atomicity, and races between requests
  are not modelled.
- The 5-minute timer of the webhook and the database's background TTL
  monitor are explicit sweep functions. When they run, and how late, is not
  modelled.
- The clock is an input. Every `new Date()` / `Date.now()` within one request
  reads the same instant.
- The count of reports filed since local midnight is an input
  (`reportsToday`). Time zones and calendar arithmetic are left out.
- The call id is the pair (timestamp, 8-character prefix). Its decimal
  rendering as `<ms>_<prefix>` is not modelled.
- When entries are equally old, the sorted lookup of a waiting entry picks
  the earliest inserted. The source leaves this tie to the database.
- Numbers are integers. JavaScript amounts and durations may be fractional
  or of another type, which the model does not cover.
- Ids that the database cannot parse as object ids are not modelled; they
  raise cast errors in the source. The model treats every id as an opaque
  string looked up in a map.
- Record fields that the modelled logic never reads are left out: `email`,
  `name`, `picture`, `refreshToken`, and the `updatedAt` timestamps.
- A report reply carries the stored report rather than only its `_id`.
- StreamWebhook.ParticipantIds: the contract states only that kept ids are
  non-empty and no more numerous than the participants. Which id each
  participant contributes (`user_id`, else `user.id`) is fixed by the
  definition alone.
