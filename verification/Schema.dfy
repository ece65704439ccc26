module Options {
  datatype Option<+T> = None | Some(value: T)
}

/** The tables of the backend that the points, stock and deposit services read and write.
    A table is a map from its unique key to the row; a foreign key is a membership fact. */
module Schema {
  import opened Options

  datatype User = User(points: int, faculty: string)

  datatype Reward = Reward(
    category: string, cost: int, stock: Option<int>, active: bool, needsDestination: bool)

  datatype RedemptionStatus =
    | Pending | Approved | Available | Fulfilled | Used | Rejected | Cancelled

  datatype Redemption = Redemption(
    user: string, reward: string, spent: int, status: RedemptionStatus,
    code: Option<string>, destination: Option<string>, key: string, note: Option<string>)

  datatype Level = High | Medium | Low

  datatype Policy = Policy(position: int, points: int)

  datatype Prediction = Prediction(user: string, cls: string, level: Level, expiresAt: real)

  /** Status of a deposit session. */
  datatype Phase =
    | Capture | Analyzing | Waiting | Routing | Moving | Ready | Detecting | Measuring
    | Confirmed | Refused | Aborted | Expired

  /** Why a session was closed without points. */
  datatype Reason =
    | MachineReported(status: string)
    | WrongPosition(expected: Option<int>, got: int)
    | Underweight(weight: real)
    | WeightNotStable
    | NoBeamBreak
    | NoMechanicalConfirmation
    | CarriageElsewhere(position: int)
    | StationMismatch
    | SessionExpired
    | LowConfidence

  datatype Session = Session(
    user: string, station: string, prediction: Option<string>, potential: int, phase: Phase,
    cls: Option<string>, position: Option<int>, level: Option<Level>,
    actual: Option<int>, weight: Option<real>, stable: Option<bool>, mechanical: Option<bool>,
    reason: Option<Reason>, expiresAt: real)

  datatype WasteEvent = WasteEvent(
    user: string, station: string, prediction: string, cls: string,
    actual: int, weight: real, mechanical: bool, points: int, confirmed: bool)

  datatype Challenge = Challenge(id: string, cls: string, targetKg: real, reward: int, active: bool)

  datatype Claim = Claim(user: string, challenge: string, reward: int)

  datatype Settings = Settings(minGrams: real, sessionTtl: real)

  datatype Tables = Tables(
    settings: Settings,
    users: map<string, User>,
    faculties: set<string>,
    rewards: map<string, Reward>,
    redemptions: map<string, Redemption>,   // by redemption id
    stations: map<string, string>,          // station id to station code
    policies: map<string, Policy>,          // by waste class
    predictions: map<string, Prediction>,
    sessions: map<string, Session>,         // by operation id
    events: map<string, WasteEvent>,        // by operation id
    challenges: seq<Challenge>,             // in the order a query returns them
    claims: map<(string, string), Claim>,   // by user and challenge
    studentRows: map<string, int>,          // leaderboard, scope students
    facultyRows: map<string, int>)          // leaderboard, scope faculties

  predicate Terminal(p: Phase) {
    p.Confirmed? || p.Refused? || p.Aborted? || p.Expired?
  }

  /** Why a call was turned down. Every such call leaves the tables as they were. */
  datatype Failure =
    | NoSuchReward | Inactive | Misconfigured | MissingDestination | LongDestination
    | SoldOut | NotEnoughPoints | NoCodeLeft | WriteConflict
    | NoSuchRedemption | WrongStatus | NoAccount | NotCash
    | DepositRefused

  /** `Committed`: the transaction wrote its rows. `Replayed`: an earlier row is handed back. */
  datatype Reply = Committed(id: string) | Replayed(id: string) | Refusal(why: Failure)

  datatype Outcome = Outcome(db: Tables, reply: Reply)
}
