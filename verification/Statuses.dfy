/** Redemptions, said on the rows: when each call commits, what it writes, and the only ways a
    status may move. */
module Statuses {
  import opened Options
  import opened Schema
  import opened Invariants
  import opened RewardRules
  import opened Transactions
  import Runs

  // ---- texts ----------------------------------------------------------------------------------

  /** The ASCII white space. */
  predicate Blank(c: char) { c as int == 32 || 9 <= c as int <= 13 || 28 <= c as int <= 31 }

  /** Everything before `i` and from `j` on is blank. */
  ghost predicate BlankOutside(s: string, i: int, j: int) {
    0 <= i <= j <= |s| && forall k :: 0 <= k < i || j <= k < |s| ==> Blank(s[k])
  }

  lemma BlankFront(s: string, i: int, j: int)
    requires s != "" && Blank(s[0]) && BlankOutside(s[1..], i, j)
    ensures BlankOutside(s, i + 1, j + 1) && s[1..][i..j] == s[i + 1..j + 1]
  {
    forall k | 0 <= k < i + 1 || j + 1 <= k < |s| ensures Blank(s[k]) {
      assert k > 0 ==> s[k] == s[1..][k - 1];
    }
  }

  lemma BlankBack(s: string, i: int, j: int)
    requires s != "" && Blank(s[|s| - 1]) && BlankOutside(s[..|s| - 1], i, j)
    ensures BlankOutside(s, i, j) && s[..|s| - 1][i..j] == s[i..j]
  {
    forall k | 0 <= k < i || j <= k < |s| ensures Blank(s[k]) {
      assert k < |s| - 1 ==> s[k] == s[..|s| - 1][k];
    }
  }

  lemma {:induction false} StripSpan(s: string) returns (i: int, j: int)
    ensures BlankOutside(s, i, j) && Strip(s) == s[i..j]
    decreases |s|
  {
    if |s| == 0 {
      i, j := 0, 0;
    } else if IsSpace(s[0]) {
      i, j := StripSpan(s[1..]);
      BlankFront(s, i, j);
      i, j := i + 1, j + 1;
    } else if IsSpace(s[|s| - 1]) {
      i, j := StripSpan(s[..|s| - 1]);
      BlankBack(s, i, j);
    } else {
      i, j := 0, |s|;
    }
  }

  /** Stripping cuts blanks off both ends, all of them and nothing else. */
  lemma {:induction false} StripCutsBlanks(s: string)
    ensures exists i, j :: BlankOutside(s, i, j) && Strip(s) == s[i..j]
    ensures Strip(s) != "" ==> !Blank(Strip(s)[0]) && !Blank(Strip(s)[|Strip(s)| - 1])
    decreases |s|
  {
    var i, j := StripSpan(s);
    if s != "" && IsSpace(s[0]) {
      StripCutsBlanks(s[1..]);
    } else if s != "" && IsSpace(s[|s| - 1]) {
      StripCutsBlanks(s[..|s| - 1]);
    }
  }

  /** A stored note is the stripped note, or its first 512 characters. */
  lemma StoredNoteIs(note: string)
    ensures StoredNote(note) == (if |Strip(note)| <= 512 then Strip(note) else Strip(note)[..512])
    ensures CleanNote(note) == (if Strip(note) == "" then None else Some(StoredNote(note)))
  {
  }

  // ---- buying ---------------------------------------------------------------------------------

  /** No row has this user and key. */
  ghost predicate Unused(rows: map<string, Redemption>, user: string, key: string) {
    forall id :: id in rows ==> rows[id].user != user || rows[id].key != key
  }

  /** Draw number `i` is the first code, of ten at most, that no row has. */
  ghost predicate FirstUnused(rows: map<string, Redemption>, draws: seq<string>, i: int) {
    && 0 <= i < |draws| && i < 10
    && (forall id :: id in rows ==> rows[id].code != Some(draws[i]))
    && (forall j :: 0 <= j < i ==> exists id :: id in rows && rows[id].code == Some(draws[j]))
  }

  lemma {:induction false} FreeCodeIsFirstUnused(rows: map<string, Redemption>, draws: seq<string>, attempts: nat)
    ensures var c := FirstFreeCode(rows, draws, attempts);
      if c.Some? then exists i ::
        && 0 <= i < |draws| && i < attempts && c.value == draws[i] && !CodeTaken(rows, draws[i])
        && (forall j :: 0 <= j < i ==> CodeTaken(rows, draws[j]))
      else forall j :: 0 <= j < |draws| && j < attempts ==> CodeTaken(rows, draws[j])
    decreases attempts
  {
    if attempts == 0 || draws == [] {
    } else if !CodeTaken(rows, draws[0]) {
      assert draws[0] == draws[0];
    } else {
      var rest := draws[1..];
      FreeCodeIsFirstUnused(rows, rest, attempts - 1);
      var c := FirstFreeCode(rows, rest, attempts - 1);
      if c.Some? {
        var i :| 0 <= i < |rest| && i < attempts - 1 && c.value == rest[i] && !CodeTaken(rows, rest[i])
                 && (forall j :: 0 <= j < i ==> CodeTaken(rows, rest[j]));
        assert draws[i + 1] == rest[i];
        forall j | 0 <= j < i + 1 ensures CodeTaken(rows, draws[j]) {
          assert j > 0 ==> draws[j] == rest[j - 1];
        }
      } else {
        forall j | 0 <= j < |draws| && j < attempts ensures CodeTaken(rows, draws[j]) {
          assert j > 0 ==> draws[j] == rest[j - 1];
        }
      }
    }
  }

  /** The code of a redemption: the first of ten draws that no row has, if there is one. */
  lemma CodeIsFirstUnused(rows: map<string, Redemption>, draws: seq<string>)
    ensures var c := FirstFreeCode(rows, draws, CODE_ATTEMPTS);
      && (c.Some? <==> exists i :: FirstUnused(rows, draws, i))
      && (forall i :: FirstUnused(rows, draws, i) ==> c == Some(draws[i]))
  {
    FreeCodeIsFirstUnused(rows, draws, CODE_ATTEMPTS);
    var c := FirstFreeCode(rows, draws, CODE_ATTEMPTS);
    if c.Some? {
      var i :| 0 <= i < |draws| && i < 10 && c.value == draws[i] && !CodeTaken(rows, draws[i])
               && (forall j :: 0 <= j < i ==> CodeTaken(rows, draws[j]));
      assert FirstUnused(rows, draws, i);
      forall k | FirstUnused(rows, draws, k) ensures draws[k] == draws[i] {
        assert !CodeTaken(rows, draws[k]);
      }
    } else {
      forall k | 0 <= k < |draws| && k < 10 ensures !FirstUnused(rows, draws, k) {
        assert CodeTaken(rows, draws[k]);
      }
    }
  }

  /** The reward the call has read can be bought with this destination. */
  predicate OnOffer(r: Reward, destination: Option<string>) {
    && r.active && r.cost > 0
    && (r.needsDestination ==> destination.Some? && Strip(destination.value) != "")
    && (destination.Some? ==> |Strip(destination.value)| <= 128)
  }

  /** The current rows let the user have a unit of it. */
  ghost predicate Affordable(db: Tables, r: Reward, a: RedeemArgs) {
    && (r.stock.Some? ==> a.reward in db.rewards && db.rewards[a.reward].stock.Some?
                          && db.rewards[a.reward].stock.value > 0)
    && a.user in db.users && db.users[a.user].points >= r.cost
    && (r.category != "cash" ==> exists i :: FirstUnused(db.redemptions, a.draws, i))
  }

  /** Exactly when a redemption commits, exactly when it hands back an earlier row, and that it
      changes nothing otherwise. */
  lemma RedeemsIff(db: Tables, view: Tables, a: RedeemArgs)
    ensures var out := Execute(db, view, Redeem(a));
      var buys := Unused(view.redemptions, a.user, a.key) && a.reward in view.rewards
                  && OnOffer(view.rewards[a.reward], a.destination) && Affordable(db, view.rewards[a.reward], a);
      && (out.reply.Committed? <==>
            buys && Unused(db.redemptions, a.user, a.key) && a.id !in db.redemptions && a.reward in db.rewards)
      && (out.reply.Replayed? <==>
            !Unused(view.redemptions, a.user, a.key) || (buys && !Unused(db.redemptions, a.user, a.key)))
      && (out.reply.Committed? ==> out.reply == Committed(a.id))
      && (!out.reply.Committed? ==> out.db == db)
  {
    CodeIsFirstUnused(db.redemptions, a.draws);
    hide FirstUnused, FirstFreeCode;
    UnusedIff(view.redemptions, a.user, a.key);
    UnusedIff(db.redemptions, a.user, a.key);
    hide Lookup, Unused;
  }

  lemma UnusedIff(rows: map<string, Redemption>, user: string, key: string)
    ensures Lookup(rows, user, key).None? <==> Unused(rows, user, key)
  {
  }

  /** Why a redemption is turned down: the first thing wrong, in the order the checks are made. */
  lemma RedeemRefusedBecause(db: Tables, view: Tables, a: RedeemArgs)
    requires Unused(view.redemptions, a.user, a.key) && Execute(db, view, Redeem(a)).reply.Refusal?
    ensures var why := Execute(db, view, Redeem(a)).reply.why;
      if a.reward !in view.rewards then why == NoSuchReward
      else
        var r := view.rewards[a.reward];
        if !r.active then why == Inactive
        else if r.cost <= 0 then why == Misconfigured
        else if r.needsDestination && (a.destination.None? || Strip(a.destination.value) == "") then
          why == MissingDestination
        else if a.destination.Some? && |Strip(a.destination.value)| > 128 then why == LongDestination
        else if r.stock.Some? && !(a.reward in db.rewards && db.rewards[a.reward].stock.Some?
                                   && db.rewards[a.reward].stock.value > 0) then why == SoldOut
        else if a.user !in db.users || db.users[a.user].points < r.cost then why == NotEnoughPoints
        else if r.category != "cash" && !exists i :: FirstUnused(db.redemptions, a.draws, i) then why == NoCodeLeft
        else why == WriteConflict && (a.id in db.redemptions || a.reward !in db.rewards)
  {
    CodeIsFirstUnused(db.redemptions, a.draws);
    UnusedIff(view.redemptions, a.user, a.key);
    hide FirstUnused, FirstFreeCode, Lookup, Unused;
  }

  /** The row a redemption writes: cash waits for an admin and has no code, anything else is
      available under the first unused one; and what it takes. */
  lemma RedeemedRow(db: Tables, view: Tables, a: RedeemArgs)
    requires Extends(view, db) && Execute(db, view, Redeem(a)).reply.Committed?
    ensures var later := Execute(db, view, Redeem(a)).db;
      var r := view.rewards[a.reward];
      && a.id in later.redemptions
      && later == db.(users := later.users, rewards := later.rewards,
                      redemptions := db.redemptions[a.id := later.redemptions[a.id]])
      && later.users == db.users[a.user := db.users[a.user].(points := db.users[a.user].points - r.cost)]
      && (r.stock.None? ==> later.rewards == db.rewards)
      && (r.stock.Some? ==> db.rewards[a.reward].stock.Some? && later.rewards == db.rewards[a.reward :=
            db.rewards[a.reward].(stock := Some(db.rewards[a.reward].stock.value - 1))])
      && later.redemptions[a.id] == Redemption(
           a.user, a.reward, r.cost, if r.category == "cash" then Pending else Available,
           later.redemptions[a.id].code,
           if a.destination == None || a.destination == Some("") then None else Some(Strip(a.destination.value)),
           a.key, None)
      && (r.category == "cash" ==> later.redemptions[a.id].code == None)
      && (r.category != "cash" ==> exists i ::
            FirstUnused(db.redemptions, a.draws, i) && later.redemptions[a.id].code == Some(a.draws[i]))
  {
    CodeIsFirstUnused(db.redemptions, a.draws);
    assert SameTerms(view.rewards[a.reward], db.rewards[a.reward]);
    hide FirstUnused, FirstFreeCode, Lookup, Extends;
  }

  // ---- moving a status ------------------------------------------------------------------------

  /** A committed call on redemption `id` found it in a status `from` and left it in `to`, with
      this note, and changed no other row of that table. */
  ghost predicate Moves(db: Tables, later: Tables, id: string, from: set<RedemptionStatus>, to: RedemptionStatus,
                        note: Option<string>)
  {
    && id in db.redemptions && db.redemptions[id].status in from
    && later.redemptions == db.redemptions[id := db.redemptions[id].(status := to, note := note)]
  }

  /** A code is cancelled exactly by its own user and exactly while it is available. */
  lemma CancelsIff(db: Tables, view: Tables, id: string, user: string)
    requires Extends(view, db)
    ensures var out := Execute(db, view, CancelCode(id, user));
      && (out.reply.Committed? <==>
            id in view.redemptions && db.redemptions[id].user == user && db.redemptions[id].status == Available)
      && (out.reply.Committed? ==> Moves(db, out.db, id, {Available}, Cancelled, db.redemptions[id].note))
  {
    assert id in view.redemptions ==> SameReceipt(view.redemptions[id], db.redemptions[id]);
    hide Extends;
  }

  /** A redemption is rejected exactly while it is pending or approved and its account exists. */
  lemma RejectsIff(db: Tables, view: Tables, id: string, note: string)
    requires Extends(view, db)
    ensures var out := Execute(db, view, Reject(id, note));
      && (out.reply.Committed? <==>
            id in view.redemptions && db.redemptions[id].status in {Pending, Approved}
            && db.redemptions[id].user in db.users)
      && (out.reply.Committed? ==> Moves(db, out.db, id, {Pending, Approved}, Rejected, Some(StoredNote(note))))
  {
    assert id in view.redemptions ==> SameReceipt(view.redemptions[id], db.redemptions[id]);
    hide Extends;
  }

  /** A code is used exactly while it is available. */
  lemma UsesIff(db: Tables, view: Tables, id: string)
    requires Extends(view, db)
    ensures var out := Execute(db, view, MarkUsed(id));
      && (out.reply.Committed? <==> id in view.redemptions && db.redemptions[id].status == Available)
      && (out.reply.Committed? ==> Moves(db, out.db, id, {Available}, Used, db.redemptions[id].note))
  {
    assert id in view.redemptions ==> id in db.redemptions;
    hide Extends;
  }

  /** A redemption is approved exactly while it is pending. */
  lemma ApprovesIff(db: Tables, view: Tables, id: string, note: string)
    ensures var out := Execute(db, view, Approve(id, note));
      && (out.reply.Committed? <==> id in db.redemptions && db.redemptions[id].status == Pending)
      && (out.reply.Committed? ==> Moves(db, out.db, id, {Pending}, Approved, CleanNote(note)))
  {
  }

  /** A redemption is fulfilled exactly while it is pending or approved, and only for cash. */
  lemma FulfilsIff(db: Tables, view: Tables, id: string, note: string)
    ensures var out := Execute(db, view, Fulfill(id, note));
      && (out.reply.Committed? <==>
            id in db.redemptions && db.redemptions[id].status in {Pending, Approved}
            && db.redemptions[id].reward in db.rewards && db.rewards[db.redemptions[id].reward].category == "cash")
      && (out.reply.Committed? ==> Moves(db, out.db, id, {Pending, Approved}, Fulfilled, CleanNote(note)))
  {
  }

  /** The ways a status may move. */
  predicate MayBecome(a: RedemptionStatus, b: RedemptionStatus) {
    || a == b
    || (a == Pending && b in {Approved, Fulfilled, Rejected})
    || (a == Approved && b in {Fulfilled, Rejected})
    || (a == Available && b in {Used, Cancelled})
  }

  /** No call moves any status any other way, and none removes a row. */
  lemma StatusStep(db: Tables, view: Tables, t: Txn, id: string)
    requires Extends(view, db) && id in db.redemptions
    ensures var later := Execute(db, view, t).db;
      id in later.redemptions && MayBecome(db.redemptions[id].status, later.redemptions[id].status)
  {
    hide Execute, Extends;
    if !Execute(db, view, t).reply.Committed? {
      Runs.RefusedChangesNothing(db, view, t);
    } else {
      match t
      case Redeem(a) => RedeemedRow(db, view, a); RedeemsIff(db, view, a);
      case CancelCode(i, user) => CancelsIff(db, view, i, user);
      case Reject(i, note) => RejectsIff(db, view, i, note);
      case MarkUsed(i) => UsesIff(db, view, i);
      case Approve(i, note) => ApprovesIff(db, view, i, note);
      case Fulfill(i, note) => FulfilsIff(db, view, i, note);
      case Deposit(step) => DepositsLeaveRedemptions(db, view, t);
    }
  }

  lemma DepositsLeaveRedemptions(db: Tables, view: Tables, t: Txn)
    requires t.Deposit?
    ensures Execute(db, view, t).db.redemptions == db.redemptions
  {
  }

  /** Over any run a status ends where its moves may lead. */
  lemma {:induction false} StatusRun(sys: System, ms: seq<Move>, id: string)
    requires Runs.SystemOk(sys) && id in sys.db.redemptions
    ensures var db := Run(sys, ms).db;
      id in db.redemptions && MayBecome(sys.db.redemptions[id].status, db.redemptions[id].status)
    decreases |ms|
  {
    hide Execute, Extends, Valid;
    if ms != [] {
      var next := Next(sys, ms[0]);
      Runs.NextKeeps(sys, ms[0]);
      if ms[0].Commit? && ms[0].client in sys.open {
        StatusStep(sys.db, sys.open[ms[0].client].view, sys.open[ms[0].client].txn, id);
      }
      StatusRun(next, ms[1..], id);
    }
  }

  /** Fulfilled, used, rejected and cancelled are for good. */
  lemma FinalForGood(sys: System, ms: seq<Move>, id: string)
    requires Runs.SystemOk(sys) && id in sys.db.redemptions
    requires sys.db.redemptions[id].status in {Fulfilled, Used, Rejected, Cancelled}
    ensures id in Run(sys, ms).db.redemptions
            && Run(sys, ms).db.redemptions[id].status == sys.db.redemptions[id].status
  {
    StatusRun(sys, ms, id);
  }
}
