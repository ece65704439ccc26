# Points ledger, deposits and station: a verified model

A Dafny model of the recycling backend's points and stock ledger, of the simulated station that
drives its deposits, and of four small pieces around them: the rate limiter, token revocation,
the token codec and the leakage-free dataset split. `dafny verify dfyconfig.toml` checks it.

The backend's tables are one value (`Schema.Tables`). Every service call is a function from the
tables to the tables (`RewardRules`, `DepositRules`), and the methods on the mutable
`Store.Database` (`RewardService`, `DepositService`, `PointsTransaction`, `ChallengeService`,
`LeaderboardService`) follow the Python code statement by statement and are proved equal to those
functions. Concurrency is a state machine (`Transactions`): any number of clients read at `Begin`
and write at `Commit`, with anything in between, so what a call read may be arbitrarily old.
The results about the ledger are about every run of that machine. `Statuses` and `Gates` pin the
calls down from outside: they say on the fields of the rows and messages, without the functions that
compute them, when a call commits, why it does not, and every value it writes.

| Files | What they hold |
|---|---|
| `Totals`, `Schema`, `RewardRules`, `DepositRules`, `Transactions` | sums over tables, the data model, the calls, the runs |
| `Invariants`, `RewardSteps`, `Challenges`, `DepositSteps`, `Runs` | the invariant, its preservation by every call, the laws of whole runs |
| `Statuses`, `Gates` | for every call, exactly when it takes effect and what it writes, said on the rows and messages alone |
| `Idempotency`, `Refunds`, `Deliveries`, `Leaderboard`, `LateWrites` | one purchase per key, one refund per redemption, exactly-once deposits, exact boards, and writes that rest on an earlier read |
| `Store`, `RewardService`, `PointsTransaction`, `ChallengeService`, `DepositService`, `LeaderboardService` | the services on a mutable database |
| `Hardware`, `WeightRamp`, `Simulator`, `EndToEnd` | the station, its weight ramp, a whole plan, and the plan joined to the backend |
| `RateLimiter`, `Base64`, `Tokens`, `Revocation`, `Authentication`, `DatasetSplit` | the limiter, the token from bytes to an authenticated user and its logout, and the split |

What the proofs found, where it differs from what one might expect:

* `approve` and `fulfill` check the row they read and write it back without a guard. If another
  call could commit in between, the ledger would stand if and only if that call did not give the
  redemption back (`Refunds.LateFulfilBalancesIff`, `Refunds.LateApproveBalancesIff`), and such a
  call exists for every redemption that may be fulfilled or approved
  (`Refunds.LateFulfilCanBreakTheLedger`, `Refunds.LateApproveCanBreakTheLedger`).
* The second commit of a station capture does not look at the session again. It keeps the invariant
  if and only if the session is still live when it writes; a cancel between the two commits is
  undone (`LateWrites.LateCaptureKeepsIff`, `LateWrites.LateCaptureCanReopen`).
* The points transaction writes back a balance it has read. The ledger stands if and only if that
  balance is still current or there are no points to add; a redemption in between is lost
  (`LateWrites.LateAwardBalancesIff`, `LateWrites.LateAwardCanLoseARedemption`).
* The leaderboard's own documentation says that it is kept in sync inside the points transaction.
  The challenge bonus is added after the rows are written, so both rows are exact after a confirmed
  deposit if and only if, before it, no challenge of its class was active, unclaimed by the user,
  worth points and within reach of the confirmed weight plus this deposit's
  (`Leaderboard.ExactIffNoneDue`); `Leaderboard.RowsCanLag` gives a deposit whose rows lag.
* A result message closes a live session if and only if a prediction is attached to it and the
  station it names is not ambiguous (`Deliveries.ResultClosesIff`). A result that
  arrives before the prediction changes nothing, and a copy of it that arrives afterwards can still
  confirm the deposit (`Deliveries.EarlyResultIsNotFinal`).
* From a compartment a plan runs to its end if and only if the carriage comes to rest in one of the
  four, at its target or on the step before a jam, and there is a timeline if it weighs
  (`EndToEnd.RunsIffItRestsInside`). Any other plan raises and leaves the machine in MOVING or
  MEASURING, from where no plan ever runs (`Simulator.Station.RunPlan`).
* A plan's `beam_seen` never reaches the published result: the deposit theorem
  (`EndToEnd.PlanOutcome`) has no condition on it.
* The split's documentation promises class coverage. A known class is in all three parts if and only
  if it has at least three groups; with two it is missing from training (`DatasetSplit.FinalCoverage`).
* A logged-out token is refused at every strictly later time unless it has no `jti`; at the instant
  of the logout it is still accepted exactly when that instant is its expiry
  (`Revocation.AliveAfterLogoutIff`, `Revocation.AliveAtLogoutIff`).
* The weight ramp passes through a breakpoint if and only if the segment before it lasts at least a
  microsecond or does not change the weight (`WeightRamp.PassesThroughIff`).

## Model

| member | source | states |
|---|---|---|
| Runs.PointsLaw | backend/app/services/reward_service.py:3-17 | In every reachable state of every interleaving a balance is its opening part plus confirmed deposits plus challenge rewards minus redemptions not given back, and is never negative |
| Runs.StockLaw | backend/app/services/reward_service.py:65-76 | In every reachable state the shelf of a limited reward plus its held redemptions is the opening stock, and the shelf is never negative |
| Runs.Serializable | backend/app/services/reward_service.py:162-228 | The final tables of any interleaving with stale reads are those of the calls that wrote, run serially in commit order with fresh reads |
| Runs.StaleReadIsHarmless | backend/app/services/reward_service.py:112-125 | A call that wrote did exactly what it would have done had it read the current tables |
| Runs.RefusedChangesNothing | backend/app/services/deposit_service.py:443-446 | A call that is refused or replayed leaves every table as it was |
| Runs.RunKeeps | backend/app/services/points_transaction.py:1-14 | Every run keeps the invariant, never removes or reprices a row, and moves neither ledger |
| RewardSteps.RedeemShape | backend/app/services/reward_service.py:110-141 | A redemption that commits on any stale view writes one new row for its user, key and reward, held and priced at the current cost, and takes exactly that many points and one unit, both of which were there |
| RewardSteps.RedeemKeeps | backend/app/services/reward_service.py:79-159 | A redemption that commits on any stale view keeps the invariant and both ledgers |
| RewardSteps.GiveBackKeeps | backend/app/services/reward_service.py:182-197 | A row that leaves the held statuses gives back exactly its points and its unit |
| RewardSteps.RejectKeeps | backend/app/services/reward_service.py:162-197 | A rejection on any stale view keeps both ledgers |
| RewardSteps.CancelKeeps | backend/app/services/reward_service.py:200-228 | A cancellation on any stale view keeps both ledgers |
| RewardSteps.RestatusKeeps | backend/app/routers/admin.py:907-928 | Moving a row between held statuses moves neither points nor stock |
| Statuses.RedeemsIff | backend/app/services/reward_service.py:87-156 | A redemption commits iff no row has the user and key, the reward read is active, priced and given a fitting destination, a unit and the points are there, cash or an unused code is there, and the insert breaks no key; it hands back a row iff one has the user and key; otherwise nothing changes |
| Statuses.RedeemRefusedBecause | backend/app/services/reward_service.py:97-129 | A redemption is turned down for the first thing wrong, in the source's order |
| Statuses.RedeemedRow | backend/app/services/reward_service.py:110-141 | The row written field by field, cash pending without a code and anything else available under the first unused draw, the price taken from the user and one unit from a limited reward |
| Statuses.CodeIsFirstUnused | backend/app/services/reward_service.py:46-56 | The code is the first of ten draws that no row has, and there is one iff such a draw exists |
| Statuses.StripCutsBlanks | backend/app/services/reward_service.py:105-108 | Stripping cuts off both ends all blanks and nothing else |
| Statuses.StoredNoteIs | backend/app/routers/admin.py:859-887 | A note is stored stripped, at most 512 characters of it, and an empty one not at all unless it rejects |
| Statuses.CancelsIff | backend/app/services/reward_service.py:208-228 | A code is cancelled iff its own user asks and it is available now, whatever was read before |
| Statuses.RejectsIff | backend/app/services/reward_service.py:171-192 | A redemption is rejected iff it is pending or approved now and its account exists, with the note |
| Statuses.UsesIff | backend/app/routers/admin.py:914-928 | A code is used iff it is available now |
| Statuses.ApprovesIff | backend/app/routers/admin.py:855-860 | A redemption is approved iff it is pending, with the note |
| Statuses.FulfilsIff | backend/app/routers/admin.py:870-888 | A redemption is fulfilled iff it is pending or approved and its reward is cash, with the note |
| Statuses.StatusStep | backend/app/services/reward_service.py:171-219 | No call on any stale view moves a status except pending to approved, fulfilled or rejected, approved to fulfilled or rejected, available to used or cancelled |
| Statuses.StatusRun | backend/app/services/reward_service.py:162-228 | Over any run a status ends where those moves may lead |
| Statuses.FinalForGood | backend/app/routers/admin.py:911-913 | Fulfilled, used, rejected and cancelled are final over any run |
| Refunds.RefundStep | backend/app/services/reward_service.py:166-181 | A call refunds a redemption exactly when it is the one that moves it to rejected or cancelled |
| Refunds.RefundedExactlyOnce | backend/app/services/reward_service.py:162-228 | Over any run a redemption is refunded once if it ends given back and did not start so, and otherwise never |
| Refunds.RefundMoves | backend/app/services/reward_service.py:182-197 | One refund moves the row, its user's balance by the points it cost and one unit of its limited reward, and no other row of any table |
| Refunds.LateFulfilBalancesIff | backend/app/routers/admin.py:864-889 | A fulfil that writes after other commits leaves the ledgers balanced if and only if the row was not given back in the meantime |
| Refunds.LateApproveBalancesIff | backend/app/routers/admin.py:851-861 | The same for an approval |
| Refunds.LateFulfilCanBreakTheLedger | backend/app/routers/admin.py:864-904 | For every redemption that may be fulfilled, a rejection in between commits and the ledger breaks |
| Idempotency.SameKeySameRedemption | backend/app/services/reward_service.py:143-156 | All clients that were given a redemption for one user and key were given the same one, in any interleaving |
| Idempotency.PurchaseStep | backend/app/services/reward_service.py:88-156 | A call takes points and stock for a user and key exactly when it brings the first row that has them |
| Idempotency.PurchasedExactlyOnce | backend/alembic/versions/0008_rewards.py:83 | Over any run the calls that take points and stock for a user and key are one if it ends with a row that has them and did not start with one, and otherwise none |
| Idempotency.ReceiptIsHeld | backend/app/services/reward_service.py:88-95 | Whatever redemption a client was given is in the final tables under its user and key |
| Refunds.LateApproveCanBreakTheLedger | backend/app/routers/admin.py:851-904 | For every redemption that may be approved, a rejection in between commits and the ledger breaks |
| LateWrites.CaptureIsItsTwoCommits | backend/app/services/deposit_service.py:255-312 | With nothing in between, the two commits of a capture are the capture step of the runs |
| LateWrites.LateCaptureKeepsIff | backend/app/services/deposit_service.py:310-312 | A second commit keeps the invariant, the final rows and both ledgers if and only if the session is still live when it writes |
| LateWrites.LateCaptureCanReopen | backend/app/services/deposit_service.py:255-338 | For every capture that reaches its second commit with a frame that is unusable or not of low confidence, a cancel between its commits is accepted and the second commit opens the session again |
| LateWrites.AwardIsTimely | backend/app/services/points_transaction.py:55-56 | With the current balance read, the late award is the award of the runs |
| LateWrites.LateAwardBalancesIff | backend/app/services/points_transaction.py:55-56 | An award that writes back an earlier balance keeps both ledgers if and only if that balance is current or there are no points to add |
| LateWrites.LateAwardCanLoseARedemption | backend/app/services/points_transaction.py:25-69 | For every deposit worth points, a redemption by its user between read and write breaks the ledger |
| Deliveries.FreshDatabase | backend/app/services/deposit_service.py:198-214 | A database without redemptions, sessions, events and claims satisfies the invariant, and its ledgers open at its balances and stock |
| Deliveries.ConfirmedIffProven | backend/app/services/deposit_service.py:396-446 | In every reachable state a session is confirmed iff its operation has a confirmed event; the event carries its points, position, class, at least the minimum weight, on a level that is not low; no other event carries points |
| Deliveries.ClosedForGood | backend/app/services/deposit_service.py:34-34 | Over any run a closed session, its event and the absence of one are final |
| Deliveries.ClaimedForGood | backend/app/services/challenge_service.py:45-48 | Over any run a claimed challenge keeps its one row and payout |
| Deliveries.ClosedIgnoresAll | backend/app/services/deposit_service.py:396-399 | No create, capture, cancel, telemetry or result about a closed operation changes any table |
| Deliveries.DropLater | backend/app/services/deposit_service.py:466-486 | Dropping every later step about a closed operation from any run gives the same final tables |
| Deliveries.ResultClosesIff | backend/app/models/waste_event.py:38-41 | A result closes a live session if and only if a prediction is attached and the named station is not ambiguous; otherwise nothing changes |
| Deliveries.ExactlyOnce | backend/app/services/deposit_service.py:328-457 | After the first result or cancel of a routed session, dropping every later step about it gives the same final tables |
| Deliveries.EarlyResultIsNotFinal | backend/app/services/deposit_service.py:370-457 | For every unpredicted session and passing message: result, capture, result ends confirmed, result, capture does not |
| Deliveries.RoutedConfirms | backend/app/services/deposit_service.py:488-519 | A live unexpired routed session is confirmed by a message that passes every check |
| Deliveries.AdvanceAllIsHighest | backend/app/services/deposit_service.py:36-56 | Any sequence of machine states leaves the phase of highest rank among the start and the mapped targets |
| Deliveries.TelemetryRun | backend/app/services/deposit_service.py:342-366 | Telemetry runs move the phase of their own session and nothing else in the tables |
| Deliveries.TelemetryOrderFree | backend/app/services/deposit_service.py:36-38 | Two telemetry sequences with the same set of states end in the same tables, whatever order and repetition |
| Gates.ConfirmsIff | backend/app/services/deposit_service.py:373-446 | Over every message a live session is confirmed iff a prediction is attached, the message names no station or its own alone, it is in time, and status, position, weight, stability, beam, mechanics and carriage all pass |
| Gates.RefusesBecause | backend/app/services/deposit_service.py:387-418 | A routed live session is refused for a station mismatch, then expires, then is refused for the first fault of the report, each with its reason and an event of 0 points; a station name shared by two changes nothing |
| Gates.ConfirmedWrites | backend/app/services/points_transaction.py:39-63 | A confirmation stores what the message said in event and session and pays the user the session's points and the rewards of the challenges then due, nobody else anything |
| Gates.CreatesIff | backend/app/services/deposit_service.py:136-163 | A session is created iff station and user exist, the operation is new, and a given prediction is the user's own, in time, not of low confidence and routable |
| Gates.CreatedRow | backend/app/services/deposit_service.py:165-214 | The row of a routed and of a capture-first session, field by field |
| Gates.CapturesIff | backend/app/services/deposit_service.py:242-253 | A frame is taken iff the session is live and the name is its own station's alone |
| Gates.CapturedRow | backend/app/services/deposit_service.py:258-312 | What an unusable, an unroutable, a low-confidence and any other frame makes of its session |
| Gates.CancelsIff | backend/app/services/deposit_service.py:328-338 | A session is cancelled iff its own user asks and it is live |
| Gates.MachineStates | backend/app/services/deposit_service.py:39-46 | Six machine states stand for a phase, in any case, and no other |
| Gates.UpperOf | backend/app/services/deposit_service.py:352-352 | Upper case moves each small letter to its capital and leaves the rest |
| Gates.TelemetryMovesIff | backend/app/services/deposit_service.py:352-364 | Telemetry moves a live session iff its state stands for a later phase, and moves it there |
| Challenges.SettlePaysItsRows | backend/app/services/challenge_service.py:66-105 | The bonus is the sum of the rewards of the rows inserted, for the paid user and for nobody else |
| Challenges.SettleOnlyAdds | backend/app/services/challenge_service.py:66-105 | Existing claims stay, and every new row is a reached challenge of that class, for that user, not claimed before |
| Challenges.SettleClaims | backend/app/services/challenge_service.py:66-91 | The claims after the loop are those before and one per challenge of the class that is active and reached, worth its own reward or 0 |
| Challenges.PaysWhatIsDue | backend/app/services/challenge_service.py:57-105 | The bonus is the sum of the positive rewards of the challenges of the class that were active, reached and unclaimed |
| Challenges.ProgressIsKilograms | backend/app/services/challenge_service.py:113-129 | The progress is the sum of weight / 1000 over the user's confirmed events of the class |
| Challenges.BonusIsItsRows | backend/app/services/challenge_service.py:42-105 | The balance moves by exactly the rewards of the claims the call adds |
| Challenges.BonusCompletesReached | backend/app/services/challenge_service.py:45-48 | Afterwards every active challenge of the class whose target the confirmed weight reaches is claimed |
| Challenges.LostClaimsAreHarmless | backend/app/services/challenge_service.py:50-53 | A call that read an old set of completed challenges ends as one that read the current set |
| DepositSteps.AwardKeeps | backend/app/services/points_transaction.py:25-69 | The base award keeps the invariant and moves event points and balance together |
| DepositSteps.BonusKeeps | backend/app/services/challenge_service.py:57-105 | The bonus keeps the invariant and moves claims and balance together |
| DepositSteps.CompleteKeeps | backend/app/services/deposit_service.py:370-457 | Whatever a result message says, completing keeps the invariant and both ledgers |
| DepositSteps.DepositKeeps | backend/app/services/deposit_service.py:120-457 | Every deposit step keeps the invariant and both ledgers |
| Leaderboard.AwardRanks | backend/app/services/points_transaction.py:55-66 | Whatever stale rows it finds, the award leaves the student row equal to the balance and the faculty row equal to the sum over its members, and every other row as it was |
| Challenges.PaysIffDue | backend/app/services/challenge_service.py:60-105 | The loop pays something if and only if, before it, some challenge was active, reached, unclaimed and worth points |
| Leaderboard.BonusPaidIffDue | backend/app/services/challenge_service.py:57-70 | A deposit will pay a bonus if and only if the tables before it have a challenge due at the confirmed weight plus its own |
| Leaderboard.ExactIffNoneDue | backend/app/models/leaderboard_entry.py:11-13 | After a confirmed deposit both rows are exact if and only if no challenge was due before it; otherwise both are too low |
| Leaderboard.RowsCanLag | backend/app/services/deposit_service.py:420-442 | A valid database and a message whose deposit is confirmed and leaves both rows wrong |
| Leaderboard.RepairIsExact | backend/app/services/leaderboard_service.py:41-77 | Repair makes every student row and every existing faculty's row exact and drops rows of users that are gone |
| Leaderboard.RepairedBoardsAgree | backend/app/services/leaderboard_service.py:41-77 | After repair the existing faculty rows add up to the same total as the student rows |
| Leaderboard.SumByFaculty | backend/app/services/leaderboard_service.py:52-56 | Adding balances up per faculty is adding them up over all users |
| Store.Database.Rollback | backend/app/services/deposit_service.py:443-446 | Every table is again what was saved |
| Store.MemberTotal | backend/app/services/points_transaction.py:141-144 | The loop over members computes the faculty's total |
| Store.ProgressTotal | backend/app/services/challenge_service.py:113-129 | The query computes the confirmed kilograms of one user in one class |
| Store.FindRedemption | backend/app/services/reward_service.py:88-93 | The query by user and key returns the row that has them, if there is one |
| RewardService.GenerateCode | backend/app/services/reward_service.py:46-56 | The retry loop returns the first unused of at most ten drawn codes, or fails |
| RewardService.Redeem | backend/app/services/reward_service.py:79-159 | On the database, with any stale read, it ends in exactly the tables and reply of the specified call |
| RewardService.RestoreReservedStock | backend/app/services/reward_service.py:65-76 | One unit more for a limited reward; an unlimited or missing one is untouched |
| RewardService.AdminReject | backend/app/services/reward_service.py:162-197 | Refines the specified rejection, rolling the status back when the account is gone |
| RewardService.UserCancelAvailable | backend/app/services/reward_service.py:200-228 | Refines the specified cancellation |
| RewardService.MarkUsed | backend/app/routers/admin.py:907-928 | Refines the specified transition, guarded on the current row |
| RewardService.ApproveRedemption | backend/app/routers/admin.py:851-861 | Refines the specified approval as one step |
| RewardService.FulfillRedemption | backend/app/routers/admin.py:864-889 | Refines the specified fulfilment as one step |
| PointsTransaction.AwardPoints | backend/app/services/points_transaction.py:25-69 | Refines the base award, leaving the student's and the faculty's rows exact whatever they were, and fails exactly when the user, prediction or class is missing or the event exists |
| PointsTransaction.RecordRejection | backend/app/services/points_transaction.py:72-107 | Refines closing without points |
| PointsTransaction.UpsertStudentLeaderboard | backend/app/services/points_transaction.py:110-129 | The student's row is the current balance, others are untouched |
| PointsTransaction.UpsertFacultyLeaderboard | backend/app/services/points_transaction.py:132-163 | An existing faculty's row is its members' total, others are untouched |
| ChallengeService.OnDepositConfirmed | backend/app/services/challenge_service.py:42-105 | Refines the bonus; what it returns is what it adds to the balance, and is the sum of the positive rewards of the challenges due before |
| DepositService.CreateSession | backend/app/services/deposit_service.py:120-223 | Refines session creation, routed and capture-first |
| DepositService.HandleCapture | backend/app/services/deposit_service.py:227-324 | Its two commits together refine one capture step |
| DepositService.Classify | backend/app/services/deposit_service.py:258-324 | Every way the frame can end: unusable, unroutable, low, routed |
| DepositService.Cancel | backend/app/services/deposit_service.py:328-338 | Refines cancellation |
| DepositService.ApplyMachineState | backend/app/services/deposit_service.py:342-366 | Refines one telemetry step |
| DepositService.Reject | backend/app/services/deposit_service.py:466-486 | Refines closing without points, and does nothing to a closed session |
| DepositService.Pay | backend/app/services/deposit_service.py:420-446 | Base points and bonus are written together, or neither is |
| DepositService.CompleteFromEvent | backend/app/services/deposit_service.py:370-457 | Refines completion: every gate in the source's order |
| LeaderboardService.RebuildStudents | backend/app/services/leaderboard_service.py:44-50 | The student board is exactly the balances |
| LeaderboardService.OverwriteFaculties | backend/app/services/leaderboard_service.py:52-76 | Every existing faculty's row is its members' total, other rows stay |
| LeaderboardService.Repair | backend/app/services/leaderboard_service.py:41-77 | Refines the repair of both boards; every student's and every existing faculty's row is exact |
| Hardware.StateMachine.Transition | hardware-simulator/hardware/state_machine.py:90-97 | The state changes exactly when the table allows it |
| Hardware.ConfirmedOneWay | hardware-simulator/hardware/state_machine.py:48-72 | Every legal path from IDLE to DEPOSIT_CONFIRMED that does not come back to IDLE is the one through routing, moving, positioned, ready, detecting and measuring |
| Hardware.OnlyBefore | hardware-simulator/hardware/state_machine.py:3-13 | Which states each state can be reached from |
| Hardware.PositionSensor.Set | hardware-simulator/hardware/sensors.py:26-29 | The sensor follows known positions and refuses any other |
| Hardware.LoadCell.ReadWeight | hardware-simulator/hardware/load_cell.py:31-33 | A reading is the value plus the next noise draw, rounded to hundredths |
| Hardware.Round2Near | hardware-simulator/hardware/load_cell.py:33-33 | Rounding gives the nearest whole number of hundredths, the even one of two |
| WeightRamp.SortByTime | hardware-simulator/hardware/load_cell.py:48-48 | Sorting keeps exactly the breakpoints |
| WeightRamp.SortInOrder | hardware-simulator/hardware/load_cell.py:48-48 | Sorting puts them in time order |
| WeightRamp.SortStable | hardware-simulator/hardware/load_cell.py:48-48 | Breakpoints of one time keep their order |
| WeightRamp.RampIsPiecewiseLinear | hardware-simulator/hardware/load_cell.py:51-58 | The ramp is the first weight, then the straight line on every segment of a microsecond or more, then the greatest weight |
| WeightRamp.Ramped | hardware-simulator/hardware/load_cell.py:51-58 | The loop over segments computes the ramp |
| WeightRamp.RampStaysInRange | hardware-simulator/hardware/load_cell.py:43-60 | The ramp never leaves the range of its weights |
| WeightRamp.RampRises | hardware-simulator/hardware/load_cell.py:43-60 | Over weights that rise in time order the ramp never falls |
| WeightRamp.PassesThroughIff | hardware-simulator/hardware/load_cell.py:54-57 | At distinct times the ramp passes through a breakpoint iff the segment before it lasts a microsecond or is flat |
| Simulator.Station.Drive | hardware-simulator/hardware/carriage.py:19-40 | The carriage goes unit step by unit step to the target or to the step before the jam, the sensor with it; it is lost iff it would pass an unknown position |
| Simulator.Station.RunWeightRamp | hardware-simulator/simulator.py:216-248 | Both paths terminate, publish one reading per ramp step (or one in all) with the weight, stability and noise of its time, and settle on the final weight read and rounded |
| Simulator.Station.Reset | hardware-simulator/simulator.py:207-214 | Goes back to IDLE and says so, where the table allows it |
| Simulator.Station.Measure | hardware-simulator/simulator.py:157-170 | From arrival to the settled weight, with every state and reading it publishes, and the beam free again |
| Simulator.Station.AfterArrival | hardware-simulator/simulator.py:141-194 | The misplaced and the weighed deposit publish exactly the script of the plan |
| Simulator.Station.RunPlan | hardware-simulator/simulator.py:119-205 | Finishes iff the plan can run; then the messages are exactly the script, the machine is in IDLE and the carriage at rest where computed; otherwise only states are published and the machine stays in MOVING, MEASURING or where it was |
| Simulator.ScriptIsLegal | hardware-simulator/simulator.py:126-214 | The states a plan publishes follow the machine's table from IDLE to IDLE, and the one before the result tells jam, wrong position, confirmation, underweight or sensor error |
| Simulator.ResultsInScript | hardware-simulator/simulator.py:181-194 | A plan publishes its states, its one result right before the reset, and the same once more at the end iff it is a confirmed deposit told to repeat it |
| Simulator.ResultIs | hardware-simulator/simulator.py:144-274 | The result field by field after a jam, a wrong position, and a weighed deposit |
| Simulator.RampStepsAre | hardware-simulator/simulator.py:234-246 | A ramp reads at exactly the multiples of its step up to a nanosecond behind the last breakpoint |
| Simulator.WeighingIs | hardware-simulator/simulator.py:221-248 | Each reading while weighing, field by field, with and without a step |
| Simulator.TrackIs | hardware-simulator/simulator.py:135-137 | On its way the carriage reports each unit step towards the target |
| Simulator.SettledNear | hardware-simulator/simulator.py:243-248 | A settled weight is within the noise and half a hundredth of the plan's final weight |
| EndToEnd.PlanIsItsResult | backend/app/mqtt/handler.py:27-57 | Delivering a whole plan ends exactly as delivering its one result at its own time to the session the telemetry led to |
| EndToEnd.PlanOutcome | hardware-simulator/simulator.py:119-194 | All messages of a plan confirm a live routed session iff it is unexpired at the result, no jam falls on the way, the plan reports success with mechanical confirmation, the position is the expected one and the weight passes both checks; otherwise they reject or expire it |
| EndToEnd.JudgedByResult | backend/app/services/deposit_service.py:488-519 | The backend finds no failure in a plan's result iff the plan deserves it |
| EndToEnd.ResultDecides | backend/app/services/deposit_service.py:385-418 | How a result of the right station closes a live routed session |
| EndToEnd.FirstResultCounts | backend/app/services/deposit_service.py:396-399 | State messages, a result and anything more about the operation: only the result counts |
| EndToEnd.StatesRead | backend/app/services/deposit_service.py:39-46 | Each state the station reports means its own phase to the backend, and the others none |
| EndToEnd.PhaseBeforeResult | hardware-simulator/simulator.py:126-182 | Before the result a waiting session has followed the station to moving on a jam, to ready on a wrong position, and to measuring otherwise |
| EndToEnd.DeliverStates | backend/app/services/deposit_service.py:342-366 | State messages move the phase of their live session and nothing else |
| EndToEnd.FourCompartments | hardware-simulator/hardware/carriage.py:28-40 | Between compartments every plan with a timeline runs, sensor and carriage agree again, and a jam on step k leaves the carriage k-1 steps along |
| EndToEnd.RunsIffItRestsInside | hardware-simulator/hardware/sensors.py:26-28 | From a compartment a plan can run if and only if it comes to rest in one and has a timeline if it weighs |
| EndToEnd.RunAndDeliver | hardware-simulator/simulator.py:119-205 | A station's own run, delivered message by message to the backend: if the plan comes to rest in a compartment the session is confirmed, refused or expired as the plan deserves and the station is in IDLE with sensor equal to carriage; otherwise the station is stuck and the session still live |
| RateLimiter.MemoryRateLimiter.Hit | backend/app/security/rate_limit.py:31-40 | The pruning loop and the append compute the specified bucket and answer |
| RateLimiter.RefusedIffWindowFull | backend/app/security/rate_limit.py:31-40 | Over any run with a non-decreasing clock a hit is refused iff the last window already holds the limit of accepted hits |
| RateLimiter.DequeIsRecentHistory | backend/app/security/rate_limit.py:34-39 | After every hit the deque is the accepted history restricted to the last window |
| RateLimiter.WindowHoldsAtMostLimit | backend/app/security/rate_limit.py:1-9 | Any closed interval of one window's length holds at most the limit of accepted hits of a key |
| Revocation.RevocationStore.Revoke | backend/app/security/revocation.py:20-26 | Refines the specified store update with pruning |
| Revocation.RevocationStore.IsRevoked | backend/app/security/revocation.py:28-38 | Answers by the entry, and forgets only a lapsed one |
| Revocation.RevocationStore.Prune | backend/app/security/revocation.py:40-44 | Keeps exactly the entries that have not lapsed |
| Revocation.PruningIsInvisible | backend/app/security/revocation.py:40-44 | At no later time does the store answer otherwise than one that forgets nothing |
| Revocation.AliveAfterLogoutIff | backend/app/routers/auth.py:224-243 | After a logout, at any strictly later time and whatever was served since, the token is alive iff it has no id and has not expired |
| Revocation.LoggedOutNeverAuthenticates | backend/app/security/deps.py:17-36 | A logged-out token with an id never authenticates again |
| Revocation.AliveAtLogoutIff | backend/app/routers/auth.py:239-240 | At the instant of its logout a token is alive iff that is its expiry |
| Base64.B64IsUnpadded | backend/app/security/jwt.py:12-13 | Encoded text is in the base64url alphabet (section 5 of RFC 4648), without padding or dot |
| Base64.B64IsTheBits | backend/app/security/jwt.py:12-13 | Encoded text is the bytes' own bits, six at a time, zeros behind the end |
| Base64.AlphabetIs | backend/app/security/jwt.py:12-13 | The alphabet is table 2 of section 5 of RFC 4648 |
| Base64.Unb64OfB64 | backend/app/security/jwt.py:16-17 | Decoding gives back every byte string: the stripped padding is restored for every length |
| Base64.TwoPadsAlwaysSuffice | backend/app/routers/auth.py:237-237 | Two pads decode every encoded text, whatever padding it needs |
| Tokens.TokenParts | backend/app/security/jwt.py:37-39 | A minted token splits at its dots into exactly its three parts |
| Tokens.DecodeOfCreate | backend/app/security/jwt.py:25-52 | Reading a minted token gives back its claims until it expires, for every user, time to live, version and time; an empty user id is refused |
| Tokens.ClaimsComeBack | backend/app/security/jwt.py:28-52 | The same field by field: sub, iat, exp, jti and ver |
| Tokens.AcceptedIsSigned | backend/app/security/jwt.py:44-52 | Whatever is accepted is two parts without a dot and the encoded hash of both under the secret; the second decodes to claims that name a user and are in time |
| Tokens.SignedIsAccepted | backend/app/security/jwt.py:42-52 | And every such token is accepted |
| Tokens.OtherSecretRefused | backend/app/security/jwt.py:20-22 | A token minted under another secret is refused for its signature whenever the two hashes differ |
| Tokens.LogoutReadsMinted | backend/app/routers/auth.py:236-238 | Logout's own reading finds the claims of every minted token |
| Authentication.MintedAuthenticatesIff | backend/app/security/deps.py:17-36 | A minted token answers for its user iff it is in time, its id is not revoked, and the account exists, is active and has the token's version |
| Authentication.NewVersionEndsTokens | backend/app/security/deps.py:32-35 | A raised account version ends every token minted before |
| Authentication.LogoutServes | backend/app/routers/auth.py:224-243 | The logout of a minted token revokes its own id for the time it has left |
| Authentication.LoggedOutIsRefused | backend/app/security/revocation.py:1-8 | From text to text: after its logout no request with a minted token that has an id is answered at any later time, whatever was served, pruned or changed since |
| DatasetSplit.GroupBySession | ai-service/app/tools/common.py:229-233 | The groups hold exactly the items, one group per key, keys in the order of their first item and the items of a group in theirs |
| DatasetSplit.ByClass | ai-service/app/tools/common.py:248-251 | Every group is filed under its class, the known classes always having an entry |
| DatasetSplit.Shuffle | ai-service/app/tools/common.py:256-256 | The swaps of the drawn places, from the back; any draws give a permutation |
| DatasetSplit.EveryOrderComesOut | ai-service/app/tools/common.py:256-256 | For every permutation there are draws that give it |
| DatasetSplit.CountIsNumber | ai-service/app/tools/common.py:277-277 | The count of a class is the number of its groups |
| DatasetSplit.ShareIsFair | ai-service/app/tools/common.py:258-259 | From three groups on a share is the integer nearest to n times the ratio, the even one of two, and at least 1 |
| DatasetSplit.Slice | ai-service/app/tools/common.py:257-262 | One shuffled class goes to the parts in the computed numbers, nothing else moves |
| DatasetSplit.Assign | ai-service/app/tools/common.py:253-262 | All classes are assigned, each in its computed numbers |
| DatasetSplit.FindDonor | ai-service/app/tools/common.py:280-280 | The donor is the first of the smallest groups of the class |
| DatasetSplit.InheritOne | ai-service/app/tools/common.py:279-288 | A missing class is handed the first smallest group of training, or else of test, or nothing |
| DatasetSplit.RebalancePart | ai-service/app/tools/common.py:276-288 | A part inherits one group of each known class it misses, whatever order the classes come in, and nothing is lost |
| DatasetSplit.DefaultLeavesTraining | ai-service/app/tools/common.py:238-238 | Under 70/15/15 fair shares always leave a group for training from three groups on |
| DatasetSplit.FinalCoverage | ai-service/app/tools/common.py:241-245 | Under ratios that leave a group for training, as the default ones do, a known class ends in all three parts iff it has at least three groups; with two it misses training, with one it is in validation alone |
| DatasetSplit.PartsApart | ai-service/app/tools/common.py:243-244 | Two parts that share no group share no key |
| DatasetSplit.PartsKeepItems | ai-service/app/tools/common.py:273-290 | Parts that hold the groups hold exactly the items |
| DatasetSplit.SessionAwareSplit | ai-service/app/tools/common.py:236-290 | For every input, ratios and shuffle the three parts are the items and no key is in two parts; if the ratios leave a group for training, a class of three or more groups has its fair share in validation and test and the rest in training |

## Left out

- HTTP routing and schemas, MQTT sockets, WebSocket delivery, threads, mail and file upload: messages are values in a sequence.
- AI inference, the quality gate, training and calibration: a frame is unusable or has an arbitrary class and one of three levels.
- HMAC, SHA-256 and JSON: functions that the token results take as parameters; JSON is only required to round trip. Password hashing is not part of this model.
- Randomness: reward codes, token ids, shuffle draws and load-cell noise are arbitrary inputs, so the seeded generator's own sequence is not captured.
- Python's base64 decoder is modelled as its documentation describes the non-strict mode; bytes are not checked to be UTF-8.
- The SQL engine: tables are maps by unique key and a write block is one step; locks, isolation levels and deadlocks are not modelled.
- DepositService.HandleCapture: its two commits are one step of a run, and the status results are for that form; what a second commit after other calls does is stated separately in `LateWrites`, where it writes all its columns, also those whose value it had already read.
- RewardService.ApproveRedemption, RewardService.FulfillRedemption: one step each in the runs; what a delayed write would do is stated separately in `Refunds`.
- PointsTransaction.AwardPoints: it reads and rewrites the balance in the application, so the runs take deposit steps one at a time; what an award on an earlier balance does is stated separately in `LateWrites`.
- Admin edits of balances, prices and stock, and user, station, faculty, policy and challenge management: they reset the baselines of the ledgers; stock not limited stays not limited.
- Integer widths of balances and stock: unbounded integers here, as in Python.
- Floating point: weights, times and ratios are reals; rounding to hundredths and to integers is modelled, halves to even.
- Timestamps that nothing reads back (created, completed, fulfilled) and the confidence number: only expiry times are kept.
- Texts: reject reasons are a datatype, names and details of leaderboard rows are absent, and `strip` and `upper` know ASCII only.
- A command without any destination: a plan is run with the backend's destination.
- Simulator.Station.RunPlan: movement, ramp and terminal delays only sleep and are absent; sensor telemetry is recorded as readings, without the payload's other fields.
- DatasetSplit.SessionAwareSplit: item paths and metadata rows are left out, and so is the in-split shuffle, which never applies to a list.
- `LoadCell` overrides, the door sensor, and the reset helpers of limiter and revocation store: test helpers that would only add easy members.
- The firmware, whose transition table repeats the Python one, and the mobile, web and admin pages.
