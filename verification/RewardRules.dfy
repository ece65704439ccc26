/** What one call of the rewards service does to the tables. A call first reads (`view`, a state
    of the tables that may be arbitrarily old by the time it writes) and then runs its guarded
    write block on the current tables `db`. */
module RewardRules {
  import opened Options
  import opened Schema

  const CASH_CATEGORIES: set<string> := {"cash"}
  const CODE_ATTEMPTS: nat := 10
  const NOTE_LIMIT: nat := 512
  const DESTINATION_LIMIT: nat := 128

  predicate IsSpace(c: char) {
    c == ' ' || 9 as char <= c <= 13 as char || 28 as char <= c <= 31 as char
  }

  function Strip(s: string): string {
    if |s| == 0 then s
    else if IsSpace(s[0]) then Strip(s[1..])
    else if IsSpace(s[|s| - 1]) then Strip(s[..|s| - 1])
    else s
  }

  /** `s[:n]`. */
  function Cut(s: string, n: nat): string {
    if |s| <= n then s else s[..n]
  }

  /** An admin note as the router strips it and the service cuts it. */
  function StoredNote(note: string): string {
    Cut(Strip(note), NOTE_LIMIT)
  }

  /** The note of an approval or a fulfilment: an empty one is not kept. */
  function CleanNote(note: string): Option<string> {
    if StoredNote(note) == "" then None else Some(StoredNote(note))
  }

  predicate IsCash(r: Reward) {
    r.category in CASH_CATEGORIES
  }

  function StatusFor(r: Reward): RedemptionStatus {
    if IsCash(r) then Pending else Available
  }

  /** The points of a redemption in such a status are back with the user. */
  predicate Returned(s: RedemptionStatus) {
    s.Rejected? || s.Cancelled?
  }

  predicate Matches(row: Redemption, user: string, key: string) {
    row.user == user && row.key == key
  }

  /** The row a (user, idempotency key) query returns. */
  ghost function Lookup(rows: map<string, Redemption>, user: string, key: string): (r: Option<string>)
    ensures r.Some? ==> r.value in rows && Matches(rows[r.value], user, key)
    ensures r.None? ==> forall id :: id in rows ==> !Matches(rows[id], user, key)
  {
    if exists id :: id in rows && Matches(rows[id], user, key) then
      var id :| id in rows && Matches(rows[id], user, key);
      Some(id)
    else None
  }

  predicate CodeTaken(rows: map<string, Redemption>, code: string) {
    exists id :: id in rows && rows[id].code == Some(code)
  }

  /** The first of the drawn codes that no row uses, among the first `attempts` draws. */
  function FirstFreeCode(rows: map<string, Redemption>, draws: seq<string>, attempts: nat): (c: Option<string>)
    ensures c.Some? ==> c.value in draws && !CodeTaken(rows, c.value)
  {
    if attempts == 0 || draws == [] then None
    else if !CodeTaken(rows, draws[0]) then Some(draws[0])
    else FirstFreeCode(rows, draws[1..], attempts - 1)
  }

  /** The checks a call makes on the reward row it read, in order. */
  function CatalogueProblem(r: Reward, destination: Option<string>): Option<Failure> {
    if !r.active then Some(Inactive)
    else if r.cost <= 0 then Some(Misconfigured)
    else if r.needsDestination && (destination.None? || Strip(destination.value) == "") then Some(MissingDestination)
    else if destination.Some? && |Strip(destination.value)| > DESTINATION_LIMIT then Some(LongDestination)
    else None
  }

  function StoredDestination(destination: Option<string>): Option<string> {
    if destination.Some? && destination.value != "" then Some(Strip(destination.value)) else None
  }

  predicate InStock(db: Tables, reward: string) {
    reward in db.rewards && db.rewards[reward].stock.Some? && db.rewards[reward].stock.value > 0
  }

  /** Adds `n` units to a limited reward; an unlimited or missing one is left alone. */
  function AddStock(rewards: map<string, Reward>, reward: string, n: int): map<string, Reward> {
    if reward in rewards && rewards[reward].stock.Some? then
      rewards[reward := rewards[reward].(stock := Some(rewards[reward].stock.value + n))]
    else rewards
  }

  function AddPoints(users: map<string, User>, user: string, n: int): map<string, User> {
    if user in users then users[user := users[user].(points := users[user].points + n)] else users
  }

  datatype RedeemArgs = RedeemArgs(
    user: string, reward: string, key: string, destination: Option<string>,
    id: string, draws: seq<string>)

  function NewRow(a: RedeemArgs, r: Reward, code: Option<string>): Redemption {
    Redemption(a.user, a.reward, r.cost, StatusFor(r), code, StoredDestination(a.destination), a.key, None)
  }

  ghost function RedeemEffect(db: Tables, view: Tables, a: RedeemArgs): Outcome {
    var seen := Lookup(view.redemptions, a.user, a.key);
    if seen.Some? then Outcome(db, Replayed(seen.value))
    else if a.reward !in view.rewards then Outcome(db, Refusal(NoSuchReward))
    else
      var r := view.rewards[a.reward];
      var problem := CatalogueProblem(r, a.destination);
      if problem.Some? then Outcome(db, Refusal(problem.value))
      else if r.stock.Some? && !InStock(db, a.reward) then Outcome(db, Refusal(SoldOut))
      else if a.user !in db.users || db.users[a.user].points < r.cost then Outcome(db, Refusal(NotEnoughPoints))
      else
        var code := if IsCash(r) then None else FirstFreeCode(db.redemptions, a.draws, CODE_ATTEMPTS);
        if !IsCash(r) && code.None? then Outcome(db, Refusal(NoCodeLeft))
        else InsertRow(db, a, r, code)
  }

  /** The insert: a broken unique or foreign key rolls the call back, and the winner of the
      (user, key) race is handed back instead. */
  ghost function InsertRow(db: Tables, a: RedeemArgs, r: Reward, code: Option<string>): Outcome {
    var winner := Lookup(db.redemptions, a.user, a.key);
    if winner.Some? then Outcome(db, Replayed(winner.value))
    else if a.id in db.redemptions || a.reward !in db.rewards then Outcome(db, Refusal(WriteConflict))
    else
      Outcome(
        db.(users := AddPoints(db.users, a.user, -r.cost),
            rewards := if r.stock.Some? then AddStock(db.rewards, a.reward, -1) else db.rewards,
            redemptions := db.redemptions[a.id := NewRow(a, r, code)]),
        Committed(a.id))
  }

  /** Moves row `id` to `status`, gives the points back and returns the reserved unit. */
  function GiveBack(db: Tables, seen: Redemption, id: string, row: Redemption): Tables {
    db.(users := AddPoints(db.users, seen.user, seen.spent),
        rewards := AddStock(db.rewards, seen.reward, 1),
        redemptions := db.redemptions[id := row])
  }

  function RejectEffect(db: Tables, view: Tables, id: string, note: string): Outcome {
    if id !in view.redemptions then Outcome(db, Refusal(NoSuchRedemption))
    else if id !in db.redemptions || !(db.redemptions[id].status.Pending? || db.redemptions[id].status.Approved?) then
      Outcome(db, Refusal(WrongStatus))
    else if view.redemptions[id].user !in db.users then Outcome(db, Refusal(NoAccount))
    else
      Outcome(
        GiveBack(db, view.redemptions[id], id,
                 db.redemptions[id].(status := Rejected, note := Some(StoredNote(note)))),
        Committed(id))
  }

  function CancelEffect(db: Tables, view: Tables, id: string, user: string): Outcome {
    if id !in view.redemptions || view.redemptions[id].user != user then Outcome(db, Refusal(NoSuchRedemption))
    else if id !in db.redemptions || !db.redemptions[id].status.Available? then Outcome(db, Refusal(WrongStatus))
    else
      Outcome(GiveBack(db, view.redemptions[id], id, db.redemptions[id].(status := Cancelled)), Committed(id))
  }

  function MarkUsedEffect(db: Tables, view: Tables, id: string): Outcome {
    if id !in view.redemptions then Outcome(db, Refusal(NoSuchRedemption))
    else if id !in db.redemptions || !db.redemptions[id].status.Available? then Outcome(db, Refusal(WrongStatus))
    else
      Outcome(db.(redemptions := db.redemptions[id := db.redemptions[id].(status := Used)]), Committed(id))
  }

  /** Approve and fulfil check the row they read and write it back without a guard. */
  function ApproveEffect(db: Tables, view: Tables, id: string, note: string): Outcome {
    if id !in view.redemptions || id !in db.redemptions then Outcome(db, Refusal(NoSuchRedemption))
    else if !view.redemptions[id].status.Pending? then Outcome(db, Refusal(WrongStatus))
    else
      Outcome(
        db.(redemptions := db.redemptions[id := db.redemptions[id].(status := Approved, note := CleanNote(note))]),
        Committed(id))
  }

  function FulfillEffect(db: Tables, view: Tables, id: string, note: string): Outcome {
    if id !in view.redemptions || id !in db.redemptions then Outcome(db, Refusal(NoSuchRedemption))
    else if view.redemptions[id].reward !in view.rewards
            || view.rewards[view.redemptions[id].reward].category != "cash" then
      Outcome(db, Refusal(NotCash))
    else if !(view.redemptions[id].status.Pending? || view.redemptions[id].status.Approved?) then
      Outcome(db, Refusal(WrongStatus))
    else
      Outcome(
        db.(redemptions := db.redemptions[id := db.redemptions[id].(status := Fulfilled, note := CleanNote(note))]),
        Committed(id))
  }
}
