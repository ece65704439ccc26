/** What holds in every reachable state of the tables, and what no call ever changes. */
module Invariants {
  import opened Options
  import opened Schema
  import Totals
  import RewardRules

  // ---- the invariant ------------------------------------------------------------------------

  ghost predicate RedemptionOk(db: Tables, row: Redemption) {
    row.user in db.users && row.reward in db.rewards && row.spent > 0
  }

  ghost predicate UniqueKeys(rows: map<string, Redemption>) {
    forall a, b :: a in rows && b in rows && rows[a].user == rows[b].user && rows[a].key == rows[b].key ==> a == b
  }

  predicate StockOk(r: Reward) { r.stock.Some? ==> r.stock.value >= 0 }

  ghost predicate RewardsOk(db: Tables) {
    && (forall u :: u in db.users ==> db.users[u].points >= 0)
    && (forall r :: r in db.rewards ==> StockOk(db.rewards[r]))
    && (forall id :: id in db.redemptions ==> RedemptionOk(db, db.redemptions[id]))
    && UniqueKeys(db.redemptions)
  }

  /** A routed session knows its class, its compartment and a level that is not low. */
  predicate Routed(s: Session) {
    s.prediction.Some? && s.cls.Some? && s.position.Some? && (s.level == Some(High) || s.level == Some(Medium))
  }

  /** The event a confirmed session must have. */
  predicate Proves(minGrams: real, s: Session, e: WasteEvent) {
    && Routed(s) && e.confirmed && e.user == s.user && e.station == s.station && e.mechanical
    && e.points == s.potential && Some(e.actual) == s.position && e.weight >= minGrams
    && Some(e.prediction) == s.prediction && Some(e.cls) == s.cls
  }

  ghost predicate SessionOk(db: Tables, op: string, s: Session) {
    && s.user in db.users && s.potential >= 0
    && (!Terminal(s.phase) ==> op !in db.events && (s.prediction.Some? ==> Routed(s)))
    && (s.phase.Aborted? ==> op !in db.events)
    && (s.phase.Confirmed? ==> op in db.events && Proves(db.settings.minGrams, s, db.events[op]))
    && (op in db.events && !s.phase.Confirmed? ==> !db.events[op].confirmed && db.events[op].points == 0)
  }

  ghost predicate DepositsOk(db: Tables) {
    && (forall c :: c in db.policies ==> db.policies[c].points >= 0)
    && (forall op :: op in db.sessions ==> SessionOk(db, op, db.sessions[op]))
    && (forall op :: op in db.events ==> op in db.sessions)
  }

  ghost predicate Valid(db: Tables) { RewardsOk(db) && DepositsOk(db) }

  // ---- what never changes -------------------------------------------------------------------

  predicate SameTerms(a: Reward, b: Reward) {
    a == b.(stock := a.stock) && a.stock.Some? == b.stock.Some?
  }

  predicate SameReceipt(a: Redemption, b: Redemption) {
    a == b.(status := a.status, note := a.note) && (RewardRules.Returned(a.status) ==> b.status == a.status)
  }

  predicate SameDeposit(a: Session, b: Session) {
    b.user == a.user && (Terminal(a.phase) ==> b == a)
  }

  /** `later` can be reached from `db`: rows stay, and what identifies and prices them stays. */
  ghost predicate Extends(db: Tables, later: Tables) {
    && later.users.Keys == db.users.Keys
    && (forall u :: u in db.users ==> later.users[u].faculty == db.users[u].faculty)
    && later.rewards.Keys == db.rewards.Keys
    && (forall r :: r in db.rewards ==> SameTerms(db.rewards[r], later.rewards[r]))
    && (forall id :: id in db.redemptions ==>
          id in later.redemptions && SameReceipt(db.redemptions[id], later.redemptions[id]))
    && (forall op :: op in db.sessions ==> op in later.sessions && SameDeposit(db.sessions[op], later.sessions[op]))
    && (forall op :: op in db.events ==> op in later.events && later.events[op] == db.events[op])
    && (forall op :: op in db.sessions && Terminal(db.sessions[op].phase) && op !in db.events ==> op !in later.events)
    && (forall k :: k in db.claims ==> k in later.claims && later.claims[k] == db.claims[k])
    && later.settings == db.settings && later.stations == db.stations && later.policies == db.policies
    && later.challenges == db.challenges && later.faculties == db.faculties
  }

  lemma ExtendsTransitive(a: Tables, b: Tables, c: Tables)
    requires Extends(a, b) && Extends(b, c)
    ensures Extends(a, c)
  {
    forall id | id in a.redemptions
      ensures id in c.redemptions && SameReceipt(a.redemptions[id], c.redemptions[id])
    {
      assert SameReceipt(a.redemptions[id], b.redemptions[id]);
      assert SameReceipt(b.redemptions[id], c.redemptions[id]);
    }
    forall r | r in a.rewards ensures SameTerms(a.rewards[r], c.rewards[r]) {
      assert SameTerms(a.rewards[r], b.rewards[r]);
      assert SameTerms(b.rewards[r], c.rewards[r]);
    }
  }

  // ---- the ledgers --------------------------------------------------------------------------

  function EventPoints(u: string): WasteEvent -> int {
    (e: WasteEvent) => if e.user == u && e.confirmed then e.points else 0
  }

  function ClaimPoints(u: string): Claim -> int {
    (c: Claim) => if c.user == u then c.reward else 0
  }

  /** Points held by redemptions that are neither rejected nor cancelled. */
  function SpentPoints(u: string): Redemption -> int {
    (r: Redemption) => if r.user == u && !RewardRules.Returned(r.status) then r.spent else 0
  }

  /** Units held by redemptions that are neither rejected nor cancelled. */
  function HeldUnits(reward: string): Redemption -> int {
    (r: Redemption) => if r.reward == reward && !RewardRules.Returned(r.status) then 1 else 0
  }

  /** The part of a balance that deposits, challenges and redemptions do not explain. */
  ghost function OpeningBalance(db: Tables, u: string): int
    requires u in db.users
  {
    db.users[u].points - Totals.Sum(db.events, EventPoints(u)) - Totals.Sum(db.claims, ClaimPoints(u))
      + Totals.Sum(db.redemptions, SpentPoints(u))
  }

  /** Units of a limited reward on the shelf and in redemptions that hold one. */
  ghost function OpeningStock(db: Tables, r: string): int
    requires r in db.rewards && db.rewards[r].stock.Some?
  {
    db.rewards[r].stock.value + Totals.Sum(db.redemptions, HeldUnits(r))
  }

  /** Neither ledger moves. */
  ghost predicate Balanced(db: Tables, later: Tables) {
    && (forall u :: u in db.users && u in later.users ==> OpeningBalance(later, u) == OpeningBalance(db, u))
    && (forall r :: r in db.rewards && r in later.rewards && db.rewards[r].stock.Some? && later.rewards[r].stock.Some?
          ==> OpeningStock(later, r) == OpeningStock(db, r))
  }

  /** What every step keeps. */
  ghost predicate Keeps(db: Tables, later: Tables) {
    Valid(later) && Extends(db, later) && Balanced(db, later)
  }
}
