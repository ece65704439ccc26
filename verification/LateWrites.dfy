/** Two writes that rest on an earlier read: the second commit of a station capture, and the
    balance that the points transaction writes back. When each of them does no harm, and a call
    in between that makes it harmful. */
module LateWrites {
  import opened Options
  import opened Schema
  import opened DepositRules
  import opened Invariants
  import Deliveries
  import DepositSteps
  import Gates
  import RewardRules
  import RewardSteps
  import Totals

  // ---- the second commit of a capture -------------------------------------------------------

  /** The first commit: the session is being analysed. */
  function MarkAnalyzing(db: Tables, op: string): Tables
    requires op in db.sessions
  {
    db.(sessions := db.sessions[op := db.sessions[op].(phase := Analyzing)])
  }

  /** The classification ends in a second commit rather than in an error. */
  predicate Ends(db: Tables, s: Session, frame: Frame) {
    (s.user in db.users && frame.Unusable?) || Predicted(db, s, frame)
  }

  /** The second commit writes its columns to the current row without looking at its phase. */
  function SecondCommit(db: Tables, op: string, frame: Frame, now: real): Tables
    requires op in db.sessions
  {
    var s := db.sessions[op];
    if Ends(db, s, frame) then
      db.(sessions := db.sessions[op := Captured(db, s, frame)], predictions := StoredPredictions(db, s, frame, now))
    else db
  }

  /** With nothing in between, the two commits are the capture step of the runs. */
  lemma CaptureIsItsTwoCommits(db: Tables, op: string, station: string, frame: Frame, now: real)
    requires CaptureStation(db, op, station, frame, now).reply.Committed?
    ensures CaptureStation(db, op, station, frame, now).db == SecondCommit(MarkAnalyzing(db, op), op, frame, now)
  {
    var s := db.sessions[op];
    var marked := MarkAnalyzing(db, op);
    assert marked.sessions[op] == s.(phase := Analyzing);
    assert Captured(marked, marked.sessions[op], frame) == Captured(db, s, frame);
    assert marked.sessions[op := Captured(db, s, frame)] == db.sessions[op := Captured(db, s, frame)];
  }

  /** A prediction is new: no session carries it yet. */
  ghost predicate NewPrediction(db: Tables, frame: Frame) {
    frame.Classified? ==> forall o :: o in db.sessions ==> db.sessions[o].prediction != Some(frame.id)
  }

  /** A second commit keeps everything that every step keeps if and only if the session is still
      live when it writes. */
  lemma LateCaptureKeepsIff(db: Tables, op: string, frame: Frame, now: real)
    requires Valid(db) && op in db.sessions && Ends(db, db.sessions[op], frame) && NewPrediction(db, frame)
    ensures Keeps(db, SecondCommit(db, op, frame, now)) <==> !Terminal(db.sessions[op].phase)
  {
    var s := db.sessions[op];
    var later := SecondCommit(db, op, frame, now);
    assert SessionOk(db, op, s);
    if Terminal(s.phase) {
      assert later.sessions[op] != s;
      assert !SameDeposit(s, later.sessions[op]);
    } else {
      DepositSteps.CapturedOk(db, op, s, frame);
      DepositSteps.SessionWriteKeeps(db, op, Captured(db, s, frame), StoredPredictions(db, s, frame, now));
    }
  }

  /** Such a session exists for every capture of a frame that is not of low confidence: its user
      cancels between the two commits, and the second one opens the closed session again. */
  lemma LateCaptureCanReopen(db: Tables, op: string, station: string, frame: Frame, now: real)
    requires CaptureStation(db, op, station, frame, now).reply.Committed? && Ends(db, db.sessions[op], frame)
    requires frame.Classified? ==> !frame.level.Low?
    ensures var cancelled := AbortSession(MarkAnalyzing(db, op), op, db.sessions[op].user);
      && cancelled.reply.Committed? && Deliveries.IsClosed(cancelled.db, op)
      && !Deliveries.IsClosed(SecondCommit(cancelled.db, op, frame, now), op)
  {
  }

  // ---- the balance of an award ----------------------------------------------------------------

  /** The base award by a transaction that read the balance as `seen`: it writes that balance back
      with the points added, unless they are none and the value has not changed. */
  ghost function LateAward(db: Tables, op: string, e: MachineEvent, seen: int): Tables
    requires op in db.sessions && db.sessions[op].prediction.Some? && db.sessions[op].cls.Some?
    requires db.sessions[op].user in db.users
  {
    var s := db.sessions[op];
    var held := db.(users := db.users[s.user := db.users[s.user].(points := seen)]);
    var paid := Award(held, op, e);
    if s.potential == 0 then paid.(users := db.users) else paid
  }

  lemma AwardIsTimely(db: Tables, op: string, e: MachineEvent)
    requires op in db.sessions && db.sessions[op].prediction.Some? && db.sessions[op].cls.Some?
    requires db.sessions[op].user in db.users
    ensures LateAward(db, op, e, db.users[db.sessions[op].user].points) == Award(db, op, e)
  {
    var u := db.sessions[op].user;
    assert db.users[u := db.users[u].(points := db.users[u].points)] == db.users;
    assert RewardRules.AddPoints(db.users, u, 0) == db.users;
  }

  lemma LateAwardShape(db: Tables, op: string, e: MachineEvent, seen: int)
    requires op in db.sessions && db.sessions[op].prediction.Some? && db.sessions[op].cls.Some?
    requires db.sessions[op].user in db.users
    ensures var s := db.sessions[op];
      var later := LateAward(db, op, e, seen);
      && later.events == db.events[op := ConfirmedEvent(s, e)]
      && later.users == (if s.potential == 0 then db.users
                         else db.users[s.user := db.users[s.user].(points := seen + s.potential)])
      && later.claims == db.claims && later.rewards == db.rewards && later.redemptions == db.redemptions
  {
    hide Award;
    var u := db.sessions[op].user;
    var held := db.users[u := db.users[u].(points := seen)];
    Gates.AwardWrites(db.(users := held), op, e);
    assert held[u := held[u].(points := seen + db.sessions[op].potential)]
        == db.users[u := db.users[u].(points := seen + db.sessions[op].potential)];
  }

  /** What the award overwrites is missing from the balance's ledger, and only there. */
  lemma LateAwardShifts(db: Tables, op: string, e: MachineEvent, seen: int, v: string)
    requires op in db.sessions && db.sessions[op].prediction.Some? && db.sessions[op].cls.Some?
    requires db.sessions[op].user in db.users && op !in db.events && v in db.users
    ensures var s := db.sessions[op];
      var later := LateAward(db, op, e, seen);
      && v in later.users
      && OpeningBalance(later, v) - OpeningBalance(db, v)
         == if v == s.user && s.potential != 0 then seen - db.users[v].points else 0
  {
    hide LateAward;
    LateAwardShape(db, op, e, seen);
    Totals.SumUpdate(db.events, op, ConfirmedEvent(db.sessions[op], e), EventPoints(v));
  }

  /** A late award keeps both ledgers if and only if the balance it read is still current, or it
      has no points to add. */
  lemma LateAwardBalancesIff(db: Tables, op: string, e: MachineEvent, seen: int)
    requires op in db.sessions && db.sessions[op].prediction.Some? && db.sessions[op].cls.Some?
    requires db.sessions[op].user in db.users && op !in db.events
    ensures Balanced(db, LateAward(db, op, e, seen))
       <==> seen == db.users[db.sessions[op].user].points || db.sessions[op].potential == 0
  {
    hide LateAward, OpeningBalance;
    LateAwardShape(db, op, e, seen);
    forall v | v in db.users
      ensures v in LateAward(db, op, e, seen).users
      ensures OpeningBalance(LateAward(db, op, e, seen), v) - OpeningBalance(db, v)
           == if v == db.sessions[op].user && db.sessions[op].potential != 0 then seen - db.users[v].points else 0
    {
      LateAwardShifts(db, op, e, seen, v);
    }
    assert db.sessions[op].user in LateAward(db, op, e, seen).users;
  }

  /** Such a balance exists for every deposit worth points whose user can afford a reward: the
      award reads, a redemption commits, the award writes, and the points are spent but still there. */
  lemma LateAwardCanLoseARedemption(db: Tables, op: string, e: MachineEvent, a: RewardRules.RedeemArgs)
    requires Valid(db) && op in db.sessions && db.sessions[op].prediction.Some? && db.sessions[op].cls.Some?
    requires op !in db.events && db.sessions[op].potential > 0
    requires a.user == db.sessions[op].user && RewardRules.RedeemEffect(db, db, a).reply.Committed?
    ensures var redeemed := RewardRules.RedeemEffect(db, db, a).db;
      !Balanced(redeemed, LateAward(redeemed, op, e, db.users[a.user].points))
  {
    var redeemed := RewardRules.RedeemEffect(db, db, a).db;
    DepositSteps.KeepsItself(db);
    var row := RewardSteps.RedeemShape(db, db, a);
    assert redeemed.users[a.user].points == db.users[a.user].points - row.spent && row.spent > 0;
    LateAwardBalancesIff(redeemed, op, e, db.users[a.user].points);
  }
}
