/** The call-ended webhook: rewards long calls, penalises calls cut short,
    and remembers recently processed calls so a repeated event is ignored.

    The dedup memory is a map from call key to the time the call was first
    processed; a sweep that ran every five minutes forgets calls processed
    more than ten minutes earlier. */
module StreamWebhook {
  import opened Base
  import opened Users

  const REWARD_MIN_SECONDS: int := 300
  const PENALTY_BELOW_SECONDS: int := 60
  const DEDUP_WINDOW_MS: int := 10 * MINUTE_MS

  /** One entry of a participant list: `p.user_id` and `p.user?.id`. */
  datatype Participant = Participant(userIdField: Option<string>, nestedUserId: Option<string>)

  /** The `call` object of an event, with only the fields the handler reads.
      `sessionParticipants` is `call.session.participants`. */
  datatype Call = Call(
    duration: Option<int>,
    id: Option<string>,
    cid: Option<string>,
    sessionParticipants: Option<seq<Participant>>,
    members: Option<seq<Participant>>)

  /** An event: its `type`, its `call`, and `user.id` of the user who ended it. */
  datatype Event = Event(kind: string, call: Option<Call>, endedBy: Option<string>)

  /** The key a call is remembered under: `call?.id || call?.cid`, where an
      absent key (`undefined`) is a key like any other. */
  type CallKey = Option<string>

  datatype WebhookState = WebhookState(processed: map<CallKey, int>, users: map<UserId, User>)

  datatype WebhookReply =
    | NotProcessed                                   // 'Event received but not processed'
    | DuplicateIgnored(key: CallKey)                 // 'Duplicate event ignored'
    | Rewarded(duration: int, participantsRewarded: int)
    | Penalised(duration: int, newBalance: int)
    | CallEndedProcessed(duration: int)              // 'Call ended processed', no penalty

  predicate IsCallEnded(kind: string) {
    kind == "call.ended" || kind == "call.session.ended"
  }

  /** `call?.duration || 0`, in seconds. */
  function DurationOf(c: Option<Call>): int {
    if c.Some? then c.value.duration.GetOr(0) else 0
  }

  /** `call?.id || call?.cid`. */
  function KeyOf(c: Option<Call>): (k: CallKey)
    ensures c.None? ==> k.None?
    ensures c.Some? && Present(c.value.id) ==> k == c.value.id
    ensures c.Some? && !Present(c.value.id) ==> k == c.value.cid
  {
    if c.None? then None
    else if Present(c.value.id) then c.value.id
    else c.value.cid
  }

  /** `call?.session?.participants || call?.members || []`: a list that is
      present counts even when empty. */
  function ParticipantList(c: Option<Call>): seq<Participant> {
    if c.None? then []
    else if c.value.sessionParticipants.Some? then c.value.sessionParticipants.value
    else c.value.members.GetOr([])
  }

  /** `p.user_id || p.user?.id` for each participant, dropping falsy ids:
      the ids to reward, in list order, repeats kept. */
  function ParticipantIds(ps: seq<Participant>): (ids: seq<UserId>)
    ensures forall i :: 0 <= i < |ids| ==> ids[i] != ""
    ensures |ids| <= |ps|
  {
    if ps == [] then []
    else
      var p := ps[0];
      var id := if Present(p.userIdField) then p.userIdField else p.nestedUserId;
      (if Present(id) then [id.value] else []) + ParticipantIds(ps[1..])
  }

  /** One star for each listed id that names a user, once per occurrence. */
  function Reward(users: map<UserId, User>, ids: seq<UserId>): (r: map<UserId, User>)
    ensures r.Keys == users.Keys
    ensures forall k :: k in users ==>
      r[k] == users[k].(stars := users[k].stars + multiset(ids)[k])
    decreases |ids|
  {
    if ids == [] then users
    else
      var rest := Reward(users, ids[1..]);
      assert multiset(ids) == multiset{ids[0]} + multiset(ids[1..]) by {
        assert ids == [ids[0]] + ids[1..];
      }
      if ids[0] in rest then rest[ids[0] := rest[ids[0]].(stars := rest[ids[0]].stars + 1)]
      else rest
  }

  /** The balance changes for a first-seen call that lasted `duration`
      seconds, listed the participant ids `ids`, and was ended by `endedBy`. */
  function Settle(users: map<UserId, User>, duration: int, ids: seq<UserId>, endedBy: Option<string>)
    : (r: Step<map<UserId, User>, WebhookReply>)
    ensures r.state.Keys == users.Keys
    // long calls: every listed user gains one star per listing, nobody loses any
    ensures r.reply.Rewarded? <==> duration >= REWARD_MIN_SECONDS && |ids| > 0
    ensures r.reply.Rewarded? ==>
      && r.reply.participantsRewarded == |ids|
      && forall k :: k in users ==> r.state[k] == users[k].(stars := users[k].stars + multiset(ids)[k])
    // short calls: the user who ended it loses one star, only if they have one
    ensures r.reply.Penalised? <==>
      duration < PENALTY_BELOW_SECONDS && Present(endedBy) &&
      endedBy.value in users && users[endedBy.value].stars > 0
    ensures r.reply.Penalised? ==>
      && r.state == users[endedBy.value := users[endedBy.value].(stars := users[endedBy.value].stars - 1)]
      && r.reply.newBalance == users[endedBy.value].stars - 1
      && r.reply.newBalance >= 0
    // otherwise no balance changes
    ensures !r.reply.Rewarded? && !r.reply.Penalised? ==>
      r.state == users && r.reply == CallEndedProcessed(duration)
    ensures forall k :: k in users && users[k].stars >= 0 ==> r.state[k].stars >= 0
    ensures forall k :: k in users && WellFormed(users[k]) ==> WellFormed(r.state[k])
  {
    if duration >= REWARD_MIN_SECONDS && |ids| > 0 then
      Step(Reward(users, ids), Rewarded(duration, |ids|))
    else if duration < PENALTY_BELOW_SECONDS && Present(endedBy)
         && endedBy.value in users && users[endedBy.value].stars > 0 then
      var who := endedBy.value;
      var balance := users[who].stars - 1;
      Step(users[who := users[who].(stars := balance)], Penalised(duration, balance))
    else Step(users, CallEndedProcessed(duration))
  }

  /** `handleStreamWebhook` at time `now`. */
  function HandleEvent(st: WebhookState, ev: Event, now: int): (r: Step<WebhookState, WebhookReply>)
    // other event types change nothing, not even the dedup memory
    ensures !IsCallEnded(ev.kind) ==> r == Step(st, NotProcessed)
    // a call already processed changes nothing
    ensures IsCallEnded(ev.kind) && KeyOf(ev.call) in st.processed ==>
      r == Step(st, DuplicateIgnored(KeyOf(ev.call)))
    // a first-seen call is remembered as processed now, whatever the balances do
    ensures IsCallEnded(ev.kind) && KeyOf(ev.call) !in st.processed ==>
      && r.state.processed == st.processed[KeyOf(ev.call) := now]
      && r == Step(r.state, Settle(st.users, DurationOf(ev.call),
                                   ParticipantIds(ParticipantList(ev.call)), ev.endedBy).reply)
      && r.state.users == Settle(st.users, DurationOf(ev.call),
                                 ParticipantIds(ParticipantList(ev.call)), ev.endedBy).state
    ensures r.state.users.Keys == st.users.Keys
    ensures forall k :: k in st.users && st.users[k].stars >= 0 ==> r.state.users[k].stars >= 0
  {
    if !IsCallEnded(ev.kind) then Step(st, NotProcessed)
    else
      var key := KeyOf(ev.call);
      if key in st.processed then Step(st, DuplicateIgnored(key))
      else
        var settled := Settle(st.users, DurationOf(ev.call), ParticipantIds(ParticipantList(ev.call)), ev.endedBy);
        Step(WebhookState(st.processed[key := now], settled.state), settled.reply)
  }

  /** The periodic cleanup at time `now`: calls processed more than ten
      minutes ago are forgotten, all others kept with their times. */
  function SweepProcessed(processed: map<CallKey, int>, now: int): (r: map<CallKey, int>)
    ensures forall k :: k in r <==> k in processed && processed[k] >= now - DEDUP_WINDOW_MS
    ensures forall k :: k in r ==> r[k] == processed[k]
  {
    map k | k in processed && processed[k] >= now - DEDUP_WINDOW_MS :: processed[k]
  }

  /** A call is answered as a duplicate for as long as no sweep has run more
      than ten minutes after it was processed; after such a sweep, the same
      event is processed, and rewarded or penalised, again. */
  lemma DuplicateUntilSwept(st: WebhookState, ev: Event, now: int, later: int, sweepAt: int)
    requires IsCallEnded(ev.kind) && KeyOf(ev.call) !in st.processed
    ensures var st1 := HandleEvent(st, ev, now).state;
      && HandleEvent(st1, ev, later).reply == DuplicateIgnored(KeyOf(ev.call))
      && (sweepAt <= now + DEDUP_WINDOW_MS ==>
            HandleEvent(st1.(processed := SweepProcessed(st1.processed, sweepAt)), ev, later).reply.DuplicateIgnored?)
      && (sweepAt > now + DEDUP_WINDOW_MS ==>
            !HandleEvent(st1.(processed := SweepProcessed(st1.processed, sweepAt)), ev, later).reply.DuplicateIgnored?)
  {
  }

  /** With distinct participant ids, each listed user gains exactly one star. */
  lemma DistinctParticipantsGainOneStar(users: map<UserId, User>, ids: seq<UserId>, k: UserId)
    requires forall i, j :: 0 <= i < j < |ids| ==> ids[i] != ids[j]
    requires k in users
    ensures k in ids ==> Reward(users, ids)[k].stars == users[k].stars + 1
    ensures k !in ids ==> Reward(users, ids)[k] == users[k]
  {
    DistinctCountsOnce(ids, k);
  }

  /** In a sequence without repeats every element occurs once. */
  lemma {:induction false} DistinctCountsOnce(ids: seq<UserId>, k: UserId)
    requires forall i, j :: 0 <= i < j < |ids| ==> ids[i] != ids[j]
    ensures multiset(ids)[k] == if k in ids then 1 else 0
    decreases |ids|
  {
    if ids != [] {
      assert ids == [ids[0]] + ids[1..];
      assert forall i, j :: 0 <= i < j < |ids[1..]| ==> ids[1..][i] != ids[1..][j] by {
        forall i, j | 0 <= i < j < |ids[1..]|
          ensures ids[1..][i] != ids[1..][j]
        {
          assert ids[1..][i] == ids[i + 1] && ids[1..][j] == ids[j + 1];
        }
      }
      DistinctCountsOnce(ids[1..], k);
    }
  }
}
