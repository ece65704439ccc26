/** Pays the challenge bonus of a confirmed deposit. */
module ChallengeService {
  import opened Schema
  import opened Store
  import Challenges
  import DepositRules
  import RewardRules

  /** Completes every reached challenge; returns the bonus it added. `already` is the set of
      completed challenges this call read, possibly before another transaction claimed some. */
  method OnDepositConfirmed(db: Database, user: string, cls: string, already: set<string>) returns (bonus: int)
    requires user in db.users
    modifies db`users, db`claims
    ensures db.Contents() == DepositRules.Bonus(old(db.Contents()), user, cls, already)
    ensures db.users == RewardRules.AddPoints(old(db.users), user, bonus)
    ensures Challenges.DistinctIds(db.challenges) && (forall c :: c in already ==> (user, c) in old(db.claims)) ==>
      var kilograms := Challenges.Kilograms(db.events, user, cls);
      bonus == Challenges.DueRewards(db.challenges, user, cls, kilograms, old(db.claims))
  {
    var progress := ProgressTotal(db.events, user, cls);
    bonus := 0;
    var i := 0;
    var cs := db.challenges;
    ghost var whole := DepositRules.Settle(cs, user, cls, progress, already, db.claims);
    assert cs[0..] == cs;
    ghost var claims := db.claims;
    while i < |cs|
      invariant 0 <= i <= |cs| && user in db.users
      invariant db.users == RewardRules.AddPoints(old(db.users), user, bonus)
      invariant var part := DepositRules.Settle(cs[i..], user, cls, progress, already, db.claims);
        whole == (part.0, bonus + part.1)
    {
      var c := cs[i];
      assert cs[i..][1..] == cs[i + 1..];
      i := i + 1;
      if !DepositRules.Reached(c, cls, progress) || c.id in already {
        continue;
      }
      if (user, c.id) in db.claims {
        continue;  // another transaction claimed it first: only this insert is undone
      }
      db.claims := db.claims[(user, c.id) := Claim(user, c.id, if c.reward <= 0 then 0 else c.reward)];
      if c.reward <= 0 {
        continue;
      }
      db.users := RewardRules.AddPoints(db.users, user, c.reward);
      bonus := bonus + c.reward;
    }
    if Challenges.DistinctIds(cs) && forall c :: c in already ==> (user, c) in claims {
      Challenges.PaysWhatIsDue(cs, user, cls, progress, already, claims);
      Challenges.ProgressIsKilograms(db.events, user, cls);
    }
  }
}
