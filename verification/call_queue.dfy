/** The `CallQueue` collection: one document per user asking for a call.

    The collection is a sequence of entries in insertion order. Its index
    on `user_id` is not unique, so nothing in the store itself stops a user
    from owning two entries: `UniqueUsers` is an invariant that the
    operations of the matchmaking controller keep, not a property of the
    store. Entries expire 300 seconds after creation whatever their status. */
module CallQueue {
  import opened Base

  /** The `status` enum of an entry; a new entry is `Waiting`. */
  datatype QueueStatus = Waiting | Matched

  /** A call id `<timestamp>_<first 8 characters of the caller id>`, kept as
      its two parts rather than as the rendered string. */
  datatype CallId = CallId(stamp: int, prefix: string)

  /** One queue document. `userId` is required, so it is not optional here;
      `matchedWith` and `callId` default to null. */
  datatype QueueEntry = QueueEntry(
    userId: UserId,
    status: QueueStatus,
    matchedWith: Option<UserId>,
    callId: Option<CallId>,
    createdAt: int)

  /** `expireAfterSeconds: 300` on `createdAt`. */
  const TTL_MS: int := 300 * SECOND_MS

  /** An entry created with only `user_id` given: every other field takes its
      schema default and `createdAt` is the insertion time. */
  function NewEntry(u: UserId, now: int): QueueEntry {
    QueueEntry(u, Waiting, None, None, now)
  }

  /** The entry's lifetime is over: the TTL monitor may remove it. */
  predicate Expired(e: QueueEntry, now: int) {
    e.createdAt + TTL_MS <= now
  }

  /** No two entries belong to the same user. */
  predicate UniqueUsers(q: seq<QueueEntry>) {
    forall i, j :: 0 <= i < j < |q| ==> q[i].userId != q[j].userId
  }

  /** Entries stand in a consistent state: a waiting entry names no partner
      and no call, a matched one names both. */
  predicate StatusConsistent(q: seq<QueueEntry>) {
    forall i :: 0 <= i < |q| ==>
      (q[i].status == Waiting <==> q[i].matchedWith.None?) &&
      (q[i].status == Waiting <==> q[i].callId.None?)
  }

  /** `findOne({ user_id: u })` from position `k` on: the first entry of `u`. */
  function FindFrom(q: seq<QueueEntry>, u: UserId, k: nat): (r: Option<nat>)
    requires k <= |q|
    ensures r.Some? ==> k <= r.value < |q| && q[r.value].userId == u
    ensures r.Some? ==> forall j :: k <= j < r.value ==> q[j].userId != u
    ensures r.None? <==> forall j :: k <= j < |q| ==> q[j].userId != u
    decreases |q| - k
  {
    if k == |q| then None
    else if q[k].userId == u then Some(k)
    else FindFrom(q, u, k + 1)
  }

  /** `findOne({ user_id: u })`: the position of the first entry of `u`. */
  function Find(q: seq<QueueEntry>, u: UserId): (r: Option<nat>)
    ensures r.Some? ==> r.value < |q| && q[r.value].userId == u
    ensures r.None? <==> forall j :: 0 <= j < |q| ==> q[j].userId != u
  {
    FindFrom(q, u, 0)
  }

  /** The TTL monitor's pass at time `now`: every expired entry goes, every
      other entry stays, in its order. */
  function Sweep(q: seq<QueueEntry>, now: int): (r: seq<QueueEntry>)
    ensures forall e :: e in r <==> e in q && !Expired(e, now)
    ensures |r| <= |q|
    // nothing is duplicated: each surviving entry keeps its multiplicity
    ensures forall e :: multiset(r)[e] == if Expired(e, now) then 0 else multiset(q)[e]
    decreases |q|
  {
    if q == [] then []
    else
      assert q == [q[0]] + q[1..];
      if Expired(q[0], now) then Sweep(q[1..], now)
      else [q[0]] + Sweep(q[1..], now)
  }

  /** A sweep never puts two entries of one user in the collection. */
  lemma {:induction false} SweepKeepsUnique(q: seq<QueueEntry>, now: int)
    requires UniqueUsers(q)
    ensures UniqueUsers(Sweep(q, now))
    decreases |q|
  {
    if q != [] {
      var tail := q[1..];
      assert UniqueUsers(tail) by {
        forall i, j | 0 <= i < j < |tail|
          ensures tail[i].userId != tail[j].userId
        {
          assert tail[i] == q[i + 1] && tail[j] == q[j + 1];
        }
      }
      SweepKeepsUnique(tail, now);
      if !Expired(q[0], now) {
        assert forall e :: e in tail ==> e.userId != q[0].userId by {
          forall e | e in tail
            ensures e.userId != q[0].userId
          {
            var k :| 0 <= k < |tail| && tail[k] == e;
            assert q[k + 1] == e;
          }
        }
        PrependKeepsUnique(q[0], Sweep(tail, now));
      }
    }
  }

  /** Putting an entry in front of a collection without its user keeps one
      entry per user. */
  lemma PrependKeepsUnique(x: QueueEntry, rest: seq<QueueEntry>)
    requires UniqueUsers(rest)
    requires forall e :: e in rest ==> e.userId != x.userId
    ensures UniqueUsers([x] + rest)
  {
    var r := [x] + rest;
    forall i, j | 0 <= i < j < |r|
      ensures r[i].userId != r[j].userId
    {
      assert r[j] == rest[j - 1];
      if i > 0 {
        assert r[i] == rest[i - 1];
      }
    }
  }

  /** Sweeping twice at one instant removes nothing more. */
  lemma {:induction false} SweepIdempotent(q: seq<QueueEntry>, now: int)
    ensures Sweep(Sweep(q, now), now) == Sweep(q, now)
    decreases |q|
  {
    if q != [] {
      SweepIdempotent(q[1..], now);
      if !Expired(q[0], now) {
        var rest := Sweep(q[1..], now);
        assert ([q[0]] + rest)[0] == q[0];
        assert ([q[0]] + rest)[1..] == rest;
      }
    }
  }
}
