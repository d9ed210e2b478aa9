/** The matchmaking controller: join, leave and status requests over the
    `CallQueue` collection, each a sequential read-then-write.

    `Join` returns the caller's existing entry when there is one; otherwise
    it pairs the caller with the oldest waiting entry of someone else, or
    inserts a waiting entry when there is none. `Leave` deletes the caller's
    entry and `Status` only reads. */
module Matchmaking {
  import opened Base
  import opened CallQueue

  /** An entry the caller `u` may be paired with: `{ status: 'waiting',
      user_id: { $ne: u } }`. */
  predicate Eligible(e: QueueEntry, u: UserId) {
    e.status == Waiting && e.userId != u
  }

  /** Position `i` holds an eligible entry no younger than any other. */
  predicate OldestEligible(q: seq<QueueEntry>, u: UserId, i: int) {
    && 0 <= i < |q|
    && Eligible(q[i], u)
    && forall j :: 0 <= j < |q| && Eligible(q[j], u) ==> q[i].createdAt <= q[j].createdAt
  }

  /** The entry at `i` is matched and its partner's entry names it back with
      the same call id. */
  predicate PointsBack(q: seq<QueueEntry>, i: int)
    requires 0 <= i < |q|
  {
    exists j :: 0 <= j < |q| && PartnerAt(q, i, j)
  }

  /** The entry at `j` is the partner entry that the matched entry at `k`
      names, and it names `k` back with the same call id. */
  predicate PartnerAt(q: seq<QueueEntry>, k: int, j: int)
    requires 0 <= k < |q| && 0 <= j < |q|
  {
    && q[k].matchedWith.Some?
    && q[j].userId == q[k].matchedWith.value
    && q[j].status == Matched && q[j].matchedWith == Some(q[k].userId)
    && q[j].callId == q[k].callId
  }

  /** Every matched pair is symmetric and shares one call id. */
  predicate Symmetric(q: seq<QueueEntry>) {
    forall i :: 0 <= i < |q| && q[i].status == Matched ==> PointsBack(q, i)
  }

  /** What joins alone keep true of the collection. */
  predicate QueueInvariant(q: seq<QueueEntry>) {
    UniqueUsers(q) && StatusConsistent(q) && Symmetric(q)
  }

  /** The sorted `findOne` from position `k` on: the oldest eligible entry,
      the earliest inserted among equally old ones. */
  function OldestWaitingFrom(q: seq<QueueEntry>, u: UserId, k: nat): (r: Option<nat>)
    requires k <= |q|
    ensures r.Some? ==> k <= r.value < |q| && Eligible(q[r.value], u)
    ensures r.Some? ==> forall j :: k <= j < |q| && Eligible(q[j], u) ==>
      q[r.value].createdAt <= q[j].createdAt
    ensures r.Some? ==> forall j :: k <= j < r.value && Eligible(q[j], u) ==>
      q[r.value].createdAt < q[j].createdAt
    ensures r.None? <==> forall j :: k <= j < |q| ==> !Eligible(q[j], u)
    decreases |q| - k
  {
    if k == |q| then None
    else
      var rest := OldestWaitingFrom(q, u, k + 1);
      if !Eligible(q[k], u) then rest
      else if rest.None? || q[k].createdAt <= q[rest.value].createdAt then Some(k)
      else rest
  }

  /** `findOne({ status: 'waiting', user_id: { $ne: u } }).sort({ createdAt: 1 })`. */
  function OldestWaiting(q: seq<QueueEntry>, u: UserId): (r: Option<nat>)
    ensures r.Some? ==> OldestEligible(q, u, r.value)
    ensures r.None? <==> forall j :: 0 <= j < |q| ==> !Eligible(q[j], u)
  {
    OldestWaitingFrom(q, u, 0)
  }

  /** The call id written by a matching join: the current time and the first
      eight characters of the caller's id (`substring(0, 8)`). */
  function MakeCallId(u: UserId, now: int): (c: CallId)
    ensures c.stamp == now
    ensures c.prefix <= u
    ensures |c.prefix| == if |u| < 8 then |u| else 8
  {
    CallId(now, if |u| <= 8 then u else u[..8])
  }

  datatype JoinReply =
    | AlreadyInQueue(entry: QueueEntry)
    | Paired(partner: UserId, callId: CallId, entry: QueueEntry)
    | Queued(entry: QueueEntry)

  /** The matching join turned the waiting entry at `i` into the partner of
      `u`, appended the caller's matched entry, and changed nothing else. */
  predicate PairWritten(q: seq<QueueEntry>, q': seq<QueueEntry>, i: int, u: UserId, c: CallId, now: int)
    requires 0 <= i < |q|
  {
    && |q'| == |q| + 1
    && q'[i] == q[i].(status := Matched, matchedWith := Some(u), callId := Some(c))
    && q'[|q|] == QueueEntry(u, Matched, Some(q[i].userId), Some(c), now)
    && forall j :: 0 <= j < |q| && j != i ==> q'[j] == q[j]
  }

  /** `joinQueue` for caller `u` at time `now`. */
  function Join(q: seq<QueueEntry>, u: UserId, now: int): (r: Step<seq<QueueEntry>, JoinReply>)
    ensures Find(q, u).Some? ==>
      r.state == q && r.reply == AlreadyInQueue(q[Find(q, u).value])
    ensures r.reply.Paired? <==>
      Find(q, u).None? && exists j :: 0 <= j < |q| && Eligible(q[j], u)
    ensures r.reply.Queued? <==>
      Find(q, u).None? && forall j :: 0 <= j < |q| ==> !Eligible(q[j], u)
    ensures r.reply.Paired? ==> r.reply.partner != u
    ensures r.reply.Paired? ==> r.reply.callId == MakeCallId(u, now)
    ensures r.reply.Paired? ==>
      exists i ::
        && OldestEligible(q, u, i)
        && q[i].userId == r.reply.partner
        && PairWritten(q, r.state, i, u, r.reply.callId, now)
        && r.reply.entry == r.state[|q|]
    ensures r.reply.Queued? ==>
      r.reply.entry == QueueEntry(u, Waiting, None, None, now) && r.state == q + [r.reply.entry]
  {
    match Find(q, u)
    case Some(k) => Step(q, AlreadyInQueue(q[k]))
    case None =>
      match OldestWaiting(q, u)
      case Some(i) =>
        var c := MakeCallId(u, now);
        var partner := q[i];
        var mine := QueueEntry(u, Matched, Some(partner.userId), Some(c), now);
        var q' := q[i := partner.(status := Matched, matchedWith := Some(u), callId := Some(c))] + [mine];
        assert PairWritten(q, q', i, u, c, now);
        Step(q', Paired(partner.userId, c, mine))
      case None =>
        Step(q + [NewEntry(u, now)], Queued(NewEntry(u, now)))
  }

  /** The entry any join reply carries. */
  function ReplyEntry(reply: JoinReply): QueueEntry {
    match reply
    case AlreadyInQueue(e) => e
    case Paired(_, _, e) => e
    case Queued(e) => e
  }

  /** `leaveQueue`: `deleteOne({ user_id: u })` removes the first entry of
      `u`, if any, and reports success either way. */
  function Leave(q: seq<QueueEntry>, u: UserId): (r: seq<QueueEntry>)
    ensures Find(q, u).None? ==> r == q
    ensures Find(q, u).Some? ==> |r| == |q| - 1
    ensures forall e :: e in q && e.userId != u ==> e in r
    ensures forall e :: e in r ==> e in q
    ensures UniqueUsers(q) ==> forall j :: 0 <= j < |r| ==> r[j].userId != u
    ensures UniqueUsers(q) ==> UniqueUsers(r)
    // exactly one entry, the first of `u`, is removed
    ensures Find(q, u).Some? ==> multiset(r) == multiset(q) - multiset{q[Find(q, u).value]}
  {
    match Find(q, u)
    case None => q
    case Some(i) =>
      var r := q[..i] + q[i + 1..];
      assert forall j :: 0 <= j < |r| ==> r[j] == if j < i then q[j] else q[j + 1];
      assert forall k :: 0 <= k < |q| && k != i ==> q[k] == r[if k < i then k else k - 1];
      assert UniqueUsers(q) ==> UniqueUsers(r) by {
        if UniqueUsers(q) {
          DeleteKeepsUnique(q, i);
        }
      }
      DeleteOneFromMultiset(q, i);
      r
  }

  /** Deleting the entry at `i` removes one occurrence of it and nothing else. */
  lemma DeleteOneFromMultiset(q: seq<QueueEntry>, i: nat)
    requires i < |q|
    ensures multiset(q[..i] + q[i + 1..]) == multiset(q) - multiset{q[i]}
  {
    assert q == q[..i] + [q[i]] + q[i + 1..];
  }

  /** Deleting one entry never gives a user a second one. */
  lemma DeleteKeepsUnique(q: seq<QueueEntry>, i: nat)
    requires i < |q| && UniqueUsers(q)
    ensures UniqueUsers(q[..i] + q[i + 1..])
  {
    var r := q[..i] + q[i + 1..];
    forall a, b | 0 <= a < b < |r|
      ensures r[a].userId != r[b].userId
    {
      var a' := if a < i then a else a + 1;
      var b' := if b < i then b else b + 1;
      assert r[a] == q[a'] && r[b] == q[b'];
    }
  }

  datatype StatusReply = NotInQueue | InQueue(status: QueueStatus, entry: QueueEntry)

  /** `checkStatus`: the caller's own entry and its status, or `not_in_queue`. */
  function Status(q: seq<QueueEntry>, u: UserId): (r: StatusReply)
    ensures r.NotInQueue? <==> forall j :: 0 <= j < |q| ==> q[j].userId != u
    ensures r.InQueue? ==> r.entry in q && r.entry.userId == u && r.status == r.entry.status
  {
    match Find(q, u)
    case None => NotInQueue
    case Some(i) => InQueue(q[i].status, q[i])
  }

  /** After any join the caller owns exactly one entry, and no user owns two. */
  lemma JoinKeepsOneEntryPerUser(q: seq<QueueEntry>, u: UserId, now: int)
    requires UniqueUsers(q)
    ensures UniqueUsers(Join(q, u, now).state)
    ensures Find(Join(q, u, now).state, u).Some?
  {
    var r := Join(q, u, now);
    if Find(q, u).None? {
      var q' := r.state;
      forall i, j | 0 <= i < j < |q'|
        ensures q'[i].userId != q'[j].userId
      {
        assert q'[i].userId == q[i].userId;
        if j < |q| {
          assert q'[j].userId == q[j].userId;
        } else {
          assert q'[j].userId == u;
        }
      }
      assert q'[|q|].userId == u;
    }
  }

  /** Appending a fresh waiting entry keeps pairs symmetric. */
  lemma AppendWaitingKeepsPairs(q: seq<QueueEntry>, e: QueueEntry)
    requires StatusConsistent(q) && Symmetric(q)
    requires e.status == Waiting && e.matchedWith.None? && e.callId.None?
    ensures StatusConsistent(q + [e]) && Symmetric(q + [e])
  {
    var q' := q + [e];
    forall k | 0 <= k < |q'| && q'[k].status == Matched
      ensures PointsBack(q', k)
    {
      assert k < |q| && q'[k] == q[k];
      assert PointsBack(q, k);
      var j :| 0 <= j < |q| && PartnerAt(q, k, j);
      assert q'[j] == q[j];
      PointsBackByWitness(q', k, j);
    }
  }

  lemma PointsBackByWitness(q: seq<QueueEntry>, k: int, j: int)
    requires 0 <= k < |q| && 0 <= j < |q| && PartnerAt(q, k, j)
    ensures PointsBack(q, k)
  {
  }

  /** The pair write leaves every entry's status agreeing with its partner and
      call id fields. */
  lemma PairingKeepsConsistent(q: seq<QueueEntry>, q': seq<QueueEntry>, i: int, u: UserId, c: CallId, now: int)
    requires StatusConsistent(q)
    requires 0 <= i < |q|
    requires PairWritten(q, q', i, u, c, now)
    ensures StatusConsistent(q')
  {
  }

  /** Pairing the waiting entry at `i` with a caller that owns no entry keeps
      pairs symmetric: the two written entries point at each other, and every
      older pair still finds its partner where it was. */
  lemma PairingKeepsPairs(q: seq<QueueEntry>, q': seq<QueueEntry>, i: int, u: UserId, c: CallId, now: int)
    requires StatusConsistent(q) && Symmetric(q)
    requires 0 <= i < |q| && q[i].status == Waiting
    requires PairWritten(q, q', i, u, c, now)
    ensures Symmetric(q')
  {
    var n := |q|;
    forall k | 0 <= k < |q'| && q'[k].status == Matched
      ensures PointsBack(q', k)
    {
      if k == n {
        PointsBackByWitness(q', k, i);
      } else if k == i {
        PointsBackByWitness(q', k, n);
      } else {
        assert q'[k] == q[k];
        assert PointsBack(q, k);
        var j :| 0 <= j < |q| && PartnerAt(q, k, j);
        assert j != i;
        assert q'[j] == q[j];
        PointsBackByWitness(q', k, j);
      }
    }
  }

  /** A join keeps matched pairs symmetric and entries consistent. */
  lemma JoinKeepsPairsSymmetric(q: seq<QueueEntry>, u: UserId, now: int)
    requires StatusConsistent(q) && Symmetric(q)
    ensures StatusConsistent(Join(q, u, now).state)
    ensures Symmetric(Join(q, u, now).state)
  {
    var r := Join(q, u, now);
    if r.reply.Queued? {
      AppendWaitingKeepsPairs(q, r.reply.entry);
    } else if r.reply.Paired? {
      var i :| OldestEligible(q, u, i) && q[i].userId == r.reply.partner
        && PairWritten(q, r.state, i, u, r.reply.callId, now);
      PairingKeepsConsistent(q, r.state, i, u, r.reply.callId, now);
      PairingKeepsPairs(q, r.state, i, u, r.reply.callId, now);
    }
  }

  /** A join request: the caller and the instant of the request. */
  datatype JoinRequest = JoinRequest(user: UserId, at: int)

  /** The collection after serving `reqs` in order, joins only. */
  function RunJoins(q: seq<QueueEntry>, reqs: seq<JoinRequest>): seq<QueueEntry>
    decreases |reqs|
  {
    if reqs == [] then q
    else RunJoins(Join(q, reqs[0].user, reqs[0].at).state, reqs[1..])
  }

  /** Over any sequence of joins alone, no user owns two entries and every
      matched entry's partner points back with the same call id. */
  lemma {:induction false} JoinsKeepQueueInvariant(q: seq<QueueEntry>, reqs: seq<JoinRequest>)
    requires QueueInvariant(q)
    ensures QueueInvariant(RunJoins(q, reqs))
    decreases |reqs|
  {
    if reqs != [] {
      var next := Join(q, reqs[0].user, reqs[0].at).state;
      JoinKeepsOneEntryPerUser(q, reqs[0].user, reqs[0].at);
      JoinKeepsPairsSymmetric(q, reqs[0].user, reqs[0].at);
      JoinsKeepQueueInvariant(next, reqs[1..]);
    }
  }

  /** A second join by the same caller returns the entry the first one
      produced and writes nothing. */
  lemma RejoinIsIdempotent(q: seq<QueueEntry>, u: UserId, now: int, later: int)
    ensures Join(Join(q, u, now).state, u, later).state == Join(q, u, now).state
    ensures Join(Join(q, u, now).state, u, later).reply
      == AlreadyInQueue(ReplyEntry(Join(q, u, now).reply))
  {
  }

  /** Leaving removes the caller's only entry, so a status poll afterwards
      answers `not_in_queue`; every other entry, a partner still marked
      matched included, is left as it was. */
  lemma LeaveThenStatus(q: seq<QueueEntry>, u: UserId)
    requires UniqueUsers(q)
    ensures Status(Leave(q, u), u) == NotInQueue
    ensures forall e :: e in q && e.userId != u ==> e in Leave(q, u)
  {
  }

  /** Once the wait window of a user's entry is over, the TTL sweep has
      removed it and a status poll answers `not_in_queue`. */
  lemma ExpiredEntryLeavesQueue(q: seq<QueueEntry>, u: UserId, now: int)
    requires UniqueUsers(q)
    requires Find(q, u).Some? && Expired(q[Find(q, u).value], now)
    ensures Status(Sweep(q, now), u) == NotInQueue
  {
  }

  /** A leave by one side of a pair leaves the other side matched to an
      absent partner: the model's stale match. */
  lemma LeaveStrandsPartner(a: UserId, b: UserId, t0: int, t1: int)
    requires a != b
    ensures
      var q1 := Join([], a, t0).state;
      var q2 := Join(q1, b, t1).state;
      var q3 := Leave(q2, a);
      && Join(q1, b, t1).reply == Paired(a, MakeCallId(b, t1), q2[1])
      && Status(q2, a) == InQueue(Matched, QueueEntry(a, Matched, Some(b), Some(MakeCallId(b, t1)), t0))
      && Status(q3, b) == InQueue(Matched, QueueEntry(b, Matched, Some(a), Some(MakeCallId(b, t1)), t1))
      && Status(q3, a) == NotInQueue
      && !Symmetric(q3)
  {
  }
}
