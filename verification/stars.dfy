/** Star balance adjustments a user requests for themselves. */
module Stars {
  import opened Base
  import opened Users

  datatype StarError =
    | InvalidAmount       // 400 'Amount must be greater than 0'
    | UserNotFound        // 404
    | InsufficientStars   // 400 'Insufficient stars'

  /** `!amount || amount <= 0`: a missing, zero or negative amount. */
  predicate InvalidAmountGiven(amount: Option<int>) {
    amount.None? || amount.value <= 0
  }

  /** `increaseStar`: add `amount` to the caller's balance and reply with the
      new balance. */
  function IncreaseStar(users: map<UserId, User>, id: UserId, amount: Option<int>)
    : (r: Result<Step<map<UserId, User>, int>, StarError>)
    ensures InvalidAmountGiven(amount) ==> r == Err(InvalidAmount)
    ensures !InvalidAmountGiven(amount) && id !in users ==> r == Err(UserNotFound)
    ensures r.Err? ==> r.error != InsufficientStars
    // a positive amount for an existing user always succeeds
    ensures r.Ok? <==> !InvalidAmountGiven(amount) && id in users
    ensures r.Ok? ==>
      && id in users
      && r.value.state == users[id := users[id].(stars := r.value.reply)]
      && r.value.reply == users[id].stars + amount.value
      && r.value.reply > users[id].stars
  {
    if InvalidAmountGiven(amount) then Err(InvalidAmount)
    else if id !in users then Err(UserNotFound)
    else
      var balance := users[id].stars + amount.value;
      Ok(Step(users[id := users[id].(stars := balance)], balance))
  }

  /** `decreaseStar`: subtract `amount` from the caller's balance, refusing
      to take it below zero. */
  function DecreaseStar(users: map<UserId, User>, id: UserId, amount: Option<int>)
    : (r: Result<Step<map<UserId, User>, int>, StarError>)
    ensures InvalidAmountGiven(amount) ==> r == Err(InvalidAmount)
    ensures !InvalidAmountGiven(amount) && id !in users ==> r == Err(UserNotFound)
    ensures r == Err(InsufficientStars) <==>
      !InvalidAmountGiven(amount) && id in users && users[id].stars < amount.value
    // a positive amount within the balance always succeeds
    ensures r.Ok? <==> !InvalidAmountGiven(amount) && id in users && users[id].stars >= amount.value
    ensures r.Ok? ==>
      && id in users
      && r.value.state == users[id := users[id].(stars := r.value.reply)]
      && r.value.reply == users[id].stars - amount.value
      && 0 <= r.value.reply < users[id].stars
  {
    if InvalidAmountGiven(amount) then Err(InvalidAmount)
    else if id !in users then Err(UserNotFound)
    else if users[id].stars < amount.value then Err(InsufficientStars)
    else
      var balance := users[id].stars - amount.value;
      Ok(Step(users[id := users[id].(stars := balance)], balance))
  }

  /** Both adjustments keep every balance at or above zero, so well-formed
      users stay well formed. */
  lemma AdjustmentsKeepUsersWellFormed(users: map<UserId, User>, id: UserId, amount: Option<int>)
    requires forall k :: k in users ==> WellFormed(users[k])
    ensures IncreaseStar(users, id, amount).Ok? ==>
      forall k :: k in IncreaseStar(users, id, amount).value.state ==>
        WellFormed(IncreaseStar(users, id, amount).value.state[k])
    ensures DecreaseStar(users, id, amount).Ok? ==>
      forall k :: k in DecreaseStar(users, id, amount).value.state ==>
        WellFormed(DecreaseStar(users, id, amount).value.state[k])
  {
  }

  /** Taking back what was just added restores the original balances, for
      any balance the schema's minimum of 0 admits. */
  lemma IncreaseThenDecreaseRestores(users: map<UserId, User>, id: UserId, amount: Option<int>)
    requires IncreaseStar(users, id, amount).Ok?
    requires users[id].stars >= 0
    ensures DecreaseStar(IncreaseStar(users, id, amount).value.state, id, amount).Ok?
    ensures DecreaseStar(IncreaseStar(users, id, amount).value.state, id, amount).value.state == users
  {
  }
}
