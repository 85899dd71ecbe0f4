/** The betting server: the round state (fight number, betting status, the
    bets on the board and the fight history), the bet and settlement
    handlers that move credits in the ledger, the request checks of the
    account and cash routes, and the gating of the stream routes. The
    ledger and the relay are the objects the handlers call; the clock and
    the bet ids are parameters. */
module Server {

  import opened Strings
  import opened Utf8
  import opened Sorting
  import opened Config
  import DB = Database
  import P = Proxy

  datatype BettingStatus = Waiting | Open | LastCall | Closed | Result

  /** A bet on the board; `userId` is the account it was placed for. */
  datatype Bet = Bet(id: int, name: string, amount: int, side: string, userId: Option<int>, timestamp: int)

  /** A credit movement made when a fight is settled. */
  datatype Payout =
    | Win(userId: int, name: string, betAmount: int, payout: int, newCredits: int)
    | Refund(userId: int, name: string, refund: int, newCredits: int)

  datatype HistoryEntry = HistoryEntry(fight: int, result: string, bets: seq<Bet>, payouts: seq<Payout>, timestamp: int)

  /** A route's answer: a value, or the HTTP status of the error raised. */
  datatype Reply<T> = Ok(value: T) | Error(code: int)

  /** What `/bets` reports. */
  datatype BetSummary = BetSummary(bets: seq<Bet>, meronTotal: int, walaTotal: int, meronCount: nat, walaCount: nat)

  /** The credits and the history records a settlement has produced so far,
      with the payout entries it reports. */
  datatype Books = Books(users: map<int, DB.User>, records: seq<DB.BetRecord>, payouts: seq<Payout>)

  const MaxBet := 100000

  /** Bets are taken in every status but `closed` and `result`. */
  predicate AcceptsBets(s: BettingStatus) {
    s != Closed && s != Result
  }

  /** A user id counts only when it is present and truthy (non-zero). */
  predicate LinkedId(userId: Option<int>) {
    userId.Some? && userId.value != 0
  }

  predicate Linked(b: Bet) {
    LinkedId(b.userId)
  }

  function OtherId(id: int): Bet -> bool {
    (b: Bet) => b.id != id
  }

  function OnSide(side: string): Bet -> bool {
    (b: Bet) => b.side == side
  }

  // ---------------------------------------------------------------------
  // Settlement
  // ---------------------------------------------------------------------

  predicate IsSideWinner(winner: string) {
    winner == "meron" || winner == "wala"
  }

  predicate IsRefund(winner: string) {
    winner == "draw" || winner == "cancelled"
  }

  /** The credit change a settlement asks the ledger for on behalf of one
      bet: twice the stake for a linked bet on the winning side, the stake
      back for every linked bet on a draw or a cancellation, nothing else. */
  function CreditFor(b: Bet, winner: string): (c: Option<int>)
    ensures c.Some? ==> Linked(b)
    ensures IsSideWinner(winner) ==> (c.Some? <==> Linked(b) && b.side == winner)
    ensures IsSideWinner(winner) && c.Some? ==> c.value == 2 * b.amount
    ensures IsRefund(winner) ==> (c.Some? <==> Linked(b))
    ensures IsRefund(winner) && c.Some? ==> c.value == b.amount
    ensures !IsSideWinner(winner) && !IsRefund(winner) ==> c.None?
  {
    if !Linked(b) then None
    else if IsSideWinner(winner) then (if b.side == winner then Some(2 * b.amount) else None)
    else if IsRefund(winner) then Some(b.amount)
    else None
  }

  /** The result and payout saved in a linked bet's history record: `win`
      with twice the stake or `lose` with nothing on a side winner, the
      winner's own name with the stake on a draw or a cancellation. */
  function RecordFor(b: Bet, winner: string): (o: Option<(string, int)>)
    ensures o.Some? <==> Linked(b) && (IsSideWinner(winner) || IsRefund(winner))
    ensures o.Some? && IsSideWinner(winner) ==>
              (b.side == winner ==> o.value == ("win", 2 * b.amount))
              && (b.side != winner ==> o.value == ("lose", 0))
    ensures o.Some? && IsRefund(winner) ==> o.value == (winner, b.amount)
  {
    if !Linked(b) then None
    else if IsSideWinner(winner) then Some(if b.side == winner then ("win", 2 * b.amount) else ("lose", 0))
    else if IsRefund(winner) then Some((winner, b.amount))
    else None
  }

  function PayoutFor(b: Bet, winner: string, credit: int, newCredits: int): Payout
    requires Linked(b)
  {
    if IsSideWinner(winner) then Win(b.userId.value, b.name, b.amount, credit, newCredits)
    else Refund(b.userId.value, b.name, b.amount, newCredits)
  }

  /** One bet's share of `declare_winner`: the credit update, reported as
      a payout only when the account exists, then the history record. */
  function SettleBet(k: Books, b: Bet, winner: string, fight: int, now: int): Books {
    var k1 :=
      match CreditFor(b, winner)
      case None => k
      case Some(c) =>
        var uid := b.userId.value;
        if uid in k.users then
          var nc := k.users[uid].credits + c;
          Books(k.users[uid := k.users[uid].(credits := nc)], k.records, k.payouts + [PayoutFor(b, winner, c, nc)])
        else k;
    match RecordFor(b, winner)
    case None => k1
    case Some(o) =>
      k1.(records := k1.records + [DB.BetRecord(|k1.records| + 1, b.userId.value, b.name, fight, b.amount, b.side, o.0, o.1, now)])
  }

  /** The bets settled in board order. */
  function Settle(k: Books, bets: seq<Bet>, winner: string, fight: int, now: int): Books
    decreases |bets|
  {
    if bets == [] then k
    else SettleBet(Settle(k, bets[..|bets| - 1], winner, fight, now), bets[|bets| - 1], winner, fight, now)
  }

  /** The credits a settlement owes a user: the sum of the changes asked
      for on behalf of the user's bets. */
  function Owed(bets: seq<Bet>, winner: string, uid: int): int
    decreases |bets|
  {
    if bets == [] then 0
    else
      var b := bets[|bets| - 1];
      var c := CreditFor(b, winner);
      Owed(bets[..|bets| - 1], winner, uid) + (if c.Some? && b.userId.value == uid then c.value else 0)
  }

  /** What a user staked on a side, counting linked bets only. */
  function Staked(bets: seq<Bet>, uid: int, side: string): int
    decreases |bets|
  {
    if bets == [] then 0
    else
      var b := bets[|bets| - 1];
      Staked(bets[..|bets| - 1], uid, side) + (if Linked(b) && b.userId.value == uid && b.side == side then b.amount else 0)
  }

  /** What a user staked on any side, counting linked bets only. */
  function StakedAll(bets: seq<Bet>, uid: int): int
    decreases |bets|
  {
    if bets == [] then 0
    else
      var b := bets[|bets| - 1];
      StakedAll(bets[..|bets| - 1], uid) + (if Linked(b) && b.userId.value == uid then b.amount else 0)
  }

  /** Number of linked bets: the ones given a history record. */
  function LinkedCount(bets: seq<Bet>): nat
    decreases |bets|
  {
    if bets == [] then 0 else LinkedCount(bets[..|bets| - 1]) + (if Linked(bets[|bets| - 1]) then 1 else 0)
  }

  /** Settling moves only credits: the same accounts, each differing only
      in its balance, which grows by exactly what the user is owed. */
  lemma {:induction false} SettleCredits(k: Books, bets: seq<Bet>, winner: string, fight: int, now: int)
    ensures Settle(k, bets, winner, fight, now).users.Keys == k.users.Keys
    ensures forall uid :: uid in k.users ==>
              Settle(k, bets, winner, fight, now).users[uid]
                == k.users[uid].(credits := k.users[uid].credits + Owed(bets, winner, uid))
  {
    if bets != [] {
      var init := bets[..|bets| - 1];
      SettleCredits(k, init, winner, fight, now);
    }
  }

  /** On `meron` or `wala` a user is owed twice the stake placed on the
      winning side and nothing for the losing side. */
  lemma {:induction false} OwedOnSideWin(bets: seq<Bet>, winner: string, uid: int)
    requires IsSideWinner(winner)
    ensures Owed(bets, winner, uid) == 2 * Staked(bets, uid, winner)
  {
    if bets != [] {
      OwedOnSideWin(bets[..|bets| - 1], winner, uid);
    }
  }

  /** On `draw` or `cancelled` every user gets back all that was staked. */
  lemma {:induction false} OwedOnRefund(bets: seq<Bet>, winner: string, uid: int)
    requires IsRefund(winner)
    ensures Owed(bets, winner, uid) == StakedAll(bets, uid)
  {
    if bets != [] {
      OwedOnRefund(bets[..|bets| - 1], winner, uid);
    }
  }

  /** Any other winner leaves the books as they are. */
  lemma {:induction false} SettleOtherWinner(k: Books, bets: seq<Bet>, winner: string, fight: int, now: int)
    requires !IsSideWinner(winner) && !IsRefund(winner)
    ensures Settle(k, bets, winner, fight, now) == k
  {
    if bets != [] {
      SettleOtherWinner(k, bets[..|bets| - 1], winner, fight, now);
    }
  }

  /** The history gains one record per linked bet, after those it had,
      numbered on from them, each for the fight being settled and carrying
      the result and the payout the winner calls for. */
  lemma {:induction false} SettleRecords(k: Books, bets: seq<Bet>, winner: string, fight: int, now: int)
    requires IsSideWinner(winner) || IsRefund(winner)
    ensures var r := Settle(k, bets, winner, fight, now).records;
            && |r| == |k.records| + LinkedCount(bets)
            && r[..|k.records|] == k.records
            && (forall i :: |k.records| <= i < |r| ==> r[i].id == i + 1 && r[i].fightNumber == fight)
            && (IsSideWinner(winner) ==> forall i :: |k.records| <= i < |r| ==>
                  (r[i].result == "win" && r[i].side == winner && r[i].payout == 2 * r[i].amount)
                  || (r[i].result == "lose" && r[i].side != winner && r[i].payout == 0))
            && (IsRefund(winner) ==> forall i :: |k.records| <= i < |r| ==>
                  r[i].result == winner && r[i].payout == r[i].amount)
  {
    if bets != [] {
      SettleRecords(k, bets[..|bets| - 1], winner, fight, now);
    }
  }

  /** The payouts reported are wins of twice the stake on a side winner,
      refunds of the stake on a draw or a cancellation. */
  lemma {:induction false} SettlePayouts(k: Books, bets: seq<Bet>, winner: string, fight: int, now: int)
    requires k.payouts == []
    ensures var ps := Settle(k, bets, winner, fight, now).payouts;
            && |ps| <= |bets|
            && (IsSideWinner(winner) ==> forall i :: 0 <= i < |ps| ==> ps[i].Win? && ps[i].payout == 2 * ps[i].betAmount)
            && (!IsSideWinner(winner) ==> forall i :: 0 <= i < |ps| ==> ps[i].Refund?)
  {
    if bets != [] {
      SettlePayouts(k, bets[..|bets| - 1], winner, fight, now);
    }
  }

  // ---------------------------------------------------------------------
  // Bet totals
  // ---------------------------------------------------------------------

  /** The sum of the stakes. */
  function StakeSum(bets: seq<Bet>): int {
    if bets == [] then 0 else bets[0].amount + StakeSum(bets[1..])
  }

  lemma {:induction false} StakeSumAppend(s: seq<Bet>, t: seq<Bet>)
    ensures StakeSum(s + t) == StakeSum(s) + StakeSum(t)
  {
    if s == [] {
      assert s + t == t;
    } else {
      StakeSumAppend(s[1..], t);
      assert (s + t)[1..] == s[1..] + t;
    }
  }

  /** `sum(b["amount"] for b in bets if b["side"] == side)`. */
  function SideTotal(bets: seq<Bet>, side: string): int {
    StakeSum(Filter(bets, OnSide(side)))
  }

  /** A bet added at the end raises its own side's total by its stake and
      leaves every other side's total as it was. */
  lemma SideTotalAppend(bets: seq<Bet>, b: Bet, side: string)
    ensures SideTotal(bets + [b], side) == SideTotal(bets, side) + (if b.side == side then b.amount else 0)
    ensures |Filter(bets + [b], OnSide(side))| == |Filter(bets, OnSide(side))| + (if b.side == side then 1 else 0)
  {
    FilterAppend(bets, [b], OnSide(side));
    StakeSumAppend(Filter(bets, OnSide(side)), Filter([b], OnSide(side)));
    assert [b][1..] == [];
  }

  // ---------------------------------------------------------------------
  // Request checks
  // ---------------------------------------------------------------------

  /** `register_user`: a name of at least 3 and a password of at least 4
      characters. */
  predicate RegistrationAccepted(username: string, password: string) {
    |username| >= 3 && |password| >= 4
  }

  /** The cash-in and cash-out amount bounds, 100 to 50000. */
  predicate CashAmountAccepted(amount: int) {
    100 <= amount <= 50000
  }

  /** `create_cashout_request` also needs a GCash number of at least 10
      and a name of at least 2 characters. */
  predicate CashOutFieldsAccepted(amount: int, gcashNumber: string, gcashName: string) {
    CashAmountAccepted(amount) && |gcashNumber| >= 10 && |gcashName| >= 2
  }

  /** The route's checks admit a GCash number too long for its column: a
      21-digit number passes them but no cash-out row can hold it, so the
      ledger refuses the request however much the user has. */
  lemma AcceptedNumberOverflowsColumn(cashouts: map<int, DB.CashOut>)
    ensures var number := "012345678901234567890";
            && CashOutFieldsAccepted(100, number, "Juan")
            && forall code :: !DB.CashOutRowFits(cashouts, number, "Juan", code)
  {
  }

  // ---------------------------------------------------------------------
  // The round state
  // ---------------------------------------------------------------------

  class AppState {
    var currentFight: int
    var status: BettingStatus
    var bets: seq<Bet>
    var history: seq<HistoryEntry>

    constructor()
      ensures currentFight == 1 && status == Waiting && bets == [] && history == []
    {
      currentFight := 1;
      status := Waiting;
      bets := [];
      history := [];
    }

    /** `/betting/open`. */
    method OpenBetting()
      modifies this
      ensures status == Open
      ensures currentFight == old(currentFight) && bets == old(bets) && history == old(history)
    {
      status := Open;
    }

    /** `/betting/last-call`. */
    method LastCall()
      modifies this
      ensures status == BettingStatus.LastCall
      ensures currentFight == old(currentFight) && bets == old(bets) && history == old(history)
    {
      status := BettingStatus.LastCall;
    }

    /** `/betting/close`. */
    method CloseBetting()
      modifies this
      ensures status == Closed
      ensures currentFight == old(currentFight) && bets == old(bets) && history == old(history)
    {
      status := Closed;
    }

    /** `/betting/add`: refused with 400 once betting is closed or for an
        amount outside 1..100000; for a linked user, refused with 404 when
        the account does not exist and with 400 when the stake exceeds its
        credits, and otherwise the stake is taken off the credits; an
        accepted bet goes to the end of the board. */
    method AddBet(db: DB.Ledger, name: string, amount: int, side: string, userId: Option<int>,
                  betId: int, now: int) returns (r: Reply<Bet>, newCredits: Option<int>)
      requires db.Valid()
      modifies this, db
      ensures db.Valid()
      ensures currentFight == old(currentFight) && status == old(status) && history == old(history)
      ensures !AcceptsBets(old(status)) || amount <= 0 || amount > MaxBet ==>
                r == Error(400) && bets == old(bets) && db.Snapshot() == old(db.Snapshot())
      ensures AcceptsBets(old(status)) && 0 < amount <= MaxBet && LinkedId(userId) ==>
                var uid := userId.value;
                && (uid !in old(db.users) ==>
                      r == Error(404) && bets == old(bets) && db.Snapshot() == old(db.Snapshot()))
                && (uid in old(db.users) && amount > old(db.users)[uid].credits ==>
                      r == Error(400) && bets == old(bets) && db.Snapshot() == old(db.Snapshot()))
                && (uid in old(db.users) && amount <= old(db.users)[uid].credits ==>
                      var u := old(db.users)[uid];
                      && r == Ok(Bet(betId, name, amount, side, userId, now))
                      && newCredits == Some(u.credits - amount)
                      && bets == old(bets) + [r.value]
                      && db.Snapshot() == old(db.Snapshot()).(users := old(db.users)[uid := u.(credits := u.credits - amount)]))
      ensures AcceptsBets(old(status)) && 0 < amount <= MaxBet && !LinkedId(userId) ==>
                && r == Ok(Bet(betId, name, amount, side, userId, now)) && newCredits == None
                && bets == old(bets) + [r.value] && db.Snapshot() == old(db.Snapshot())
    {
      newCredits := None;
      if !AcceptsBets(status) || amount <= 0 || amount > MaxBet {
        return Error(400), None;
      }
      if LinkedId(userId) {
        var user := db.GetUserById(userId.value);
        if user.None? {
          return Error(404), None;
        }
        if amount > user.value.credits {
          return Error(400), None;
        }
        newCredits := db.UpdateCredits(userId.value, -amount);
        if newCredits.None? {
          return Error(500), None;
        }
      }
      var bet := Bet(betId, name, amount, side, userId, now);
      bets := bets + [bet];
      r := Ok(bet);
    }

    /** The socket's `add_bet`: no amount or credit checks and no user;
        dropped silently once betting is closed. */
    method AddSocketBet(name: string, amount: int, side: string, betId: int, now: int)
      modifies this
      ensures AcceptsBets(old(status)) ==> bets == old(bets) + [Bet(betId, name, amount, side, None, now)]
      ensures !AcceptsBets(old(status)) ==> bets == old(bets)
      ensures currentFight == old(currentFight) && status == old(status) && history == old(history)
    {
      if AcceptsBets(status) {
        bets := bets + [Bet(betId, name, amount, side, None, now)];
      }
    }

    /** `remove_bet` and the socket's `remove_bet`. */
    method RemoveBet(betId: int)
      modifies this
      ensures bets == Filter(old(bets), OtherId(betId))
      ensures currentFight == old(currentFight) && status == old(status) && history == old(history)
    {
      bets := Filter(bets, OtherId(betId));
    }

    /** `get_bets`. */
    function Summary(): (s: BetSummary)
      reads this
      ensures s.bets == bets
      ensures s.meronCount <= |bets| && s.walaCount <= |bets|
    {
      BetSummary(bets, SideTotal(bets, "meron"), SideTotal(bets, "wala"),
                 |Filter(bets, OnSide("meron"))|, |Filter(bets, OnSide("wala"))|)
    }

    /** `declare_winner`: settles every bet on the board in order through
        the ledger, records the fight at the head of the history and shows
        the result. */
    method DeclareWinner(db: DB.Ledger, winner: string, now: int) returns (payouts: seq<Payout>)
      requires db.Valid()
      modifies this, db
      ensures db.Valid()
      ensures var k := Settle(Books(old(db.users), old(db.betHistory), []), old(bets), winner, old(currentFight), now);
              && db.Snapshot() == old(db.Snapshot()).(users := k.users, betHistory := k.records)
              && payouts == k.payouts
      ensures history == [HistoryEntry(old(currentFight), winner, old(bets), payouts, now)] + old(history)
      ensures status == Result && bets == old(bets) && currentFight == old(currentFight)
    {
      payouts := [];
      var k0 := Books(db.users, db.betHistory, []);
      if IsSideWinner(winner) || IsRefund(winner) {
        for i := 0 to |bets|
          invariant bets == old(bets) && currentFight == old(currentFight) && history == old(history)
          invariant db.Valid()
          invariant Books(db.users, db.betHistory, payouts) == Settle(k0, bets[..i], winner, currentFight, now)
          invariant db.Snapshot() == old(db.Snapshot()).(users := db.users, betHistory := db.betHistory)
        {
          assert bets[..i + 1][..i] == bets[..i];
          payouts := SettleInLedger(db, bets[i], winner, currentFight, now, payouts);
        }
        assert bets[..|bets|] == bets;
      } else {
        SettleOtherWinner(k0, bets, winner, currentFight, now);
      }
      history := [HistoryEntry(currentFight, winner, bets, payouts, now)] + history;
      status := Result;
    }

    /** `reset_fight`: the next fight, waiting, with an empty board. */
    method ResetFight()
      modifies this
      ensures currentFight == old(currentFight) + 1 && status == Waiting && bets == []
      ensures history == old(history)
    {
      currentFight := currentFight + 1;
      status := Waiting;
      bets := [];
    }
  }

  /** The body of `declare_winner`'s loops for one bet: a linked bet
      has its credit update made, reported when the ledger knew the user,
      and its history record saved. */
  method SettleInLedger(db: DB.Ledger, b: Bet, winner: string, fight: int, now: int, payouts: seq<Payout>)
      returns (payouts': seq<Payout>)
    requires db.Valid() && (IsSideWinner(winner) || IsRefund(winner))
    modifies db
    ensures db.Valid()
    ensures Books(db.users, db.betHistory, payouts')
              == SettleBet(Books(old(db.users), old(db.betHistory), payouts), b, winner, fight, now)
    ensures db.Snapshot() == old(db.Snapshot()).(users := db.users, betHistory := db.betHistory)
  {
    payouts' := payouts;
    if Linked(b) {
      var uid := b.userId.value;
      if IsSideWinner(winner) {
        var isWinner := b.side == winner;
        var payoutAmount := if isWinner then b.amount * 2 else 0;
        var result := if isWinner then "win" else "lose";
        if isWinner {
          var nc := db.UpdateCredits(uid, payoutAmount);
          if nc.Some? {
            payouts' := payouts' + [Win(uid, b.name, b.amount, payoutAmount, nc.value)];
          }
        }
        var _ := db.SaveBetToHistory(uid, b.name, fight, b.amount, b.side, result, payoutAmount, now);
      } else {
        var nc := db.UpdateCredits(uid, b.amount);
        if nc.Some? {
          payouts' := payouts' + [Refund(uid, b.name, b.amount, nc.value)];
        }
        var _ := db.SaveBetToHistory(uid, b.name, fight, b.amount, b.side, winner, b.amount, now);
      }
    }
  }

  /** `remove_bet` removes exactly the bets with the id, keeps the others
      in their order, and leaves a board without that id as it is. */
  lemma RemoveBetExact(bets: seq<Bet>, more: seq<Bet>, id: int)
    ensures forall b :: b in Filter(bets, OtherId(id)) <==> b in bets && b.id != id
    ensures Filter(bets + more, OtherId(id)) == Filter(bets, OtherId(id)) + Filter(more, OtherId(id))
    ensures (forall k :: 0 <= k < |bets| ==> bets[k].id != id) ==> Filter(bets, OtherId(id)) == bets
  {
    var r := Filter(bets, OtherId(id));
    forall b | b in r ensures b in bets {
      assert b in multiset(r);
    }
    FilterAppend(bets, more, OtherId(id));
    if forall k :: 0 <= k < |bets| ==> bets[k].id != id {
      FilterAll(bets, OtherId(id));
    }
  }

  /** A winning bet pays its user twice the stake: after placing a bet on
      the side that then wins, on an otherwise empty board, the user ends
      with the stake gained. */
  method BetThenWin(s: AppState, db: DB.Ledger, uid: int, amount: int, side: string, betId: int, now: int)
      returns (before: int, after: int)
    requires db.Valid() && s.status == Open && s.bets == [] && uid != 0 && uid in db.users
    requires 0 < amount <= MaxBet && amount <= db.users[uid].credits && IsSideWinner(side)
    modifies s, db
    ensures db.Valid() && uid in db.users
    ensures after == before + amount
  {
    before := db.users[uid].credits;
    var r, nc := s.AddBet(db, "player", amount, side, Some(uid), betId, now);
    assert s.bets == [Bet(betId, "player", amount, side, Some(uid), now)];
    var k0 := Books(db.users, db.betHistory, []);
    var ps := s.DeclareWinner(db, side, now);
    SettleCredits(k0, s.bets, side, s.currentFight, now);
    OwedOnSideWin(s.bets, side, uid);
    assert s.bets[..0] == [];
    after := db.users[uid].credits;
  }

  // ---------------------------------------------------------------------
  // Account and cash routes
  // ---------------------------------------------------------------------

  /** `/auth/register`: 400 for a short name or password and for a taken
      name; otherwise the new account (`passwordHash` is the hash of the
      password). */
  method RegisterUser(db: DB.Ledger, username: string, password: string, passwordHash: string, now: int)
      returns (r: Reply<DB.PublicUser>)
    requires db.Valid()
    modifies db
    ensures db.Valid()
    ensures !RegistrationAccepted(username, password) ==> r == Error(400) && db.Snapshot() == old(db.Snapshot())
    ensures RegistrationAccepted(username, password) && old(db.UsernameTaken(username)) ==>
              r == Error(400) && db.Snapshot() == old(db.Snapshot())
    ensures RegistrationAccepted(username, password) && !old(db.UsernameTaken(username)) ==>
              var u := DB.User(old(db.userCounter) + 1, username, passwordHash, 1000, false, "user", now);
              && r == Ok(DB.Public(u))
              && db.Snapshot() == old(db.Snapshot()).(users := old(db.users)[u.id := u], userCounter := u.id)
  {
    if |username| < 3 || |password| < 4 {
      return Error(400);
    }
    var user := db.CreateUser(username, passwordHash, now);
    if user.None? {
      return Error(400);
    }
    r := Ok(user.value);
  }

  /** `/cashin/request`: 400 for an amount outside 100..50000, 500 when
      the ledger refuses the request. */
  method CreateCashinRoute(db: DB.Ledger, userId: int, amount: int, referenceCode: string)
      returns (r: Reply<DB.CashIn>)
    requires db.Valid()
    modifies db
    ensures db.Valid()
    ensures !CashAmountAccepted(amount) ==> r == Error(400) && db.Snapshot() == old(db.Snapshot())
    ensures CashAmountAccepted(amount) && !(userId in old(db.users) && DB.CashInRowFits(old(db.cashins), referenceCode)) ==>
              r == Error(500) && db.Snapshot() == old(db.Snapshot())
    ensures CashAmountAccepted(amount) && userId in old(db.users) && DB.CashInRowFits(old(db.cashins), referenceCode) ==>
              var c := DB.CashIn(old(db.cashinCounter) + 1, userId, amount, referenceCode, DB.Pending, None);
              && r == Ok(c)
              && db.Snapshot() == old(db.Snapshot()).(cashins := old(db.cashins)[c.id := c], cashinCounter := c.id)
  {
    if amount < 100 || amount > 50000 {
      return Error(400);
    }
    var request := db.CreateCashinRequest(userId, amount, referenceCode);
    if request.None? {
      return Error(500);
    }
    r := Ok(request.value);
  }

  /** `/cashout/request`: 400 for an amount outside 100..50000, a GCash
      number under 10 or a name under 2 characters, and when the ledger
      refuses the request; otherwise the request with the balance held. */
  method CreateCashoutRoute(db: DB.Ledger, userId: int, amount: int, gcashNumber: string, gcashName: string,
                            referenceCode: string) returns (r: Reply<DB.CashOutCreated>)
    requires db.Valid()
    modifies db
    ensures db.Valid()
    ensures r.Error? ==> r.code == 400 && db.Snapshot() == old(db.Snapshot())
    ensures r.Ok? <==> CashOutFieldsAccepted(amount, gcashNumber, gcashName) && userId in old(db.users)
                       && old(db.users)[userId].credits >= amount
                       && DB.CashOutRowFits(old(db.cashouts), gcashNumber, gcashName, referenceCode)
    ensures r.Ok? ==>
              var u := old(db.users)[userId];
              var c := DB.CashOut(old(db.cashoutCounter) + 1, userId, amount, gcashNumber, gcashName, referenceCode, DB.Pending, None);
              && r.value == DB.CashOutCreated(c, u.credits - amount)
              && db.Snapshot() == old(db.Snapshot()).(
                   users := old(db.users)[userId := u.(credits := u.credits - amount)],
                   cashouts := old(db.cashouts)[c.id := c], cashoutCounter := c.id)
  {
    if amount < 100 || amount > 50000 {
      return Error(400);
    }
    if |gcashNumber| < 10 {
      return Error(400);
    }
    if |gcashName| < 2 {
      return Error(400);
    }
    var request := db.CreateCashoutRequest(userId, amount, gcashNumber, gcashName, referenceCode);
    if request.None? {
      return Error(400);
    }
    r := Ok(request.value);
  }

  /** `POST /api/cashout` over the ledger as written: the same checks, but a
      request whose row does not fit is answered 400 after the amount has
      been taken from the balance. */
  method CreateCashoutRouteAsWritten(db: DB.Ledger, userId: int, amount: int, gcashNumber: string,
                                     gcashName: string, referenceCode: string) returns (r: Reply<DB.CashOutCreated>)
    requires db.Valid()
    modifies db
    ensures db.Valid()
    ensures r.Error? ==> r.code == 400
    ensures !CashOutFieldsAccepted(amount, gcashNumber, gcashName) || userId !in old(db.users)
            || old(db.users)[userId].credits < amount ==>
              r.Error? && db.Snapshot() == old(db.Snapshot())
    ensures CashOutFieldsAccepted(amount, gcashNumber, gcashName) && userId in old(db.users)
            && old(db.users)[userId].credits >= amount
            && !DB.CashOutRowFits(old(db.cashouts), gcashNumber, gcashName, referenceCode) ==>
              var u := old(db.users)[userId];
              && r.Error?
              && db.Snapshot() == old(db.Snapshot()).(users := old(db.users)[userId := u.(credits := u.credits - amount)])
    ensures CashOutFieldsAccepted(amount, gcashNumber, gcashName) && userId in old(db.users)
            && old(db.users)[userId].credits >= amount
            && DB.CashOutRowFits(old(db.cashouts), gcashNumber, gcashName, referenceCode) ==>
              var u := old(db.users)[userId];
              var c := DB.CashOut(old(db.cashoutCounter) + 1, userId, amount, gcashNumber, gcashName, referenceCode, DB.Pending, None);
              && r == Ok(DB.CashOutCreated(c, u.credits - amount))
              && db.Snapshot() == old(db.Snapshot()).(
                   users := old(db.users)[userId := u.(credits := u.credits - amount)],
                   cashouts := old(db.cashouts)[c.id := c], cashoutCounter := c.id)
  {
    if amount < 100 || amount > 50000 {
      return Error(400);
    }
    if |gcashNumber| < 10 {
      return Error(400);
    }
    if |gcashName| < 2 {
      return Error(400);
    }
    var request := db.CreateCashoutRequestAsWritten(userId, amount, gcashNumber, gcashName, referenceCode);
    if request.None? {
      return Error(400);
    }
    r := Ok(request.value);
  }

  /** With the ledger as written, a cash-out the route's checks accept can
      take the amount and still be refused: a 21-digit GCash number passes
      the checks, the request row cannot hold it, and the route answers 400
      with the balance 100 lower. */
  method OverlongNumberLosesCredits(db: DB.Ledger, userId: int, referenceCode: string)
      returns (r: Reply<DB.CashOutCreated>)
    requires db.Valid() && userId in db.users && db.users[userId].credits >= 100
    modifies db
    ensures db.Valid()
    ensures CashOutFieldsAccepted(100, "012345678901234567890", "Juan")
    ensures r == Error(400)
    ensures userId in db.users && db.users[userId].credits == old(db.users[userId].credits) - 100
  {
    AcceptedNumberOverflowsColumn(db.cashouts);
    r := CreateCashoutRouteAsWritten(db, userId, 100, "012345678901234567890", "Juan", referenceCode);
  }

  // ---------------------------------------------------------------------
  // Stream routes
  // ---------------------------------------------------------------------

  /** A relayed body: a rewritten playlist or the bytes of a segment. */
  datatype Payload = Playlist(text: string) | Media(bytes: seq<Byte>)

  /** A fetch that gave nothing answers 502. */
  function Served<T>(o: Option<T>): (r: Reply<T>)
    ensures o.None? <==> r == Error(502)
    ensures o.Some? ==> r == Ok(o.value)
  {
    if o.None? then Error(502) else Ok(o.value)
  }

  function AsPlaylist(o: Option<string>): Option<Payload> {
    if o.None? then None else Some(Playlist(o.value))
  }

  function AsMedia(o: Option<seq<Byte>>): Option<Payload> {
    if o.None? then None else Some(Media(o.value))
  }

  /** `/stream/live.m3u8`: 401 until the relay holds cookies; otherwise
      the live playlist through the fallback protocol, 502 when it fails. */
  method GetStreamManifest(p: P.StreamProxy, origin: P.Origin) returns (r: Reply<string>)
    requires p.Valid()
    modifies p
    ensures p.Valid()
    ensures !old(p.isAuthenticated) ==> r == Error(401) && p.cookies == old(p.cookies) && !p.isAuthenticated
    ensures old(p.isAuthenticated) ==>
              var a := P.Attempt(WccStreamUrl, true, old(p.cookies), old(p.backupCookies), origin);
              && r == Served(P.ManifestResult(a, WccStreamUrl, old(p.ProxyBaseUrl())))
              && p.cookies == (if a.BackupOk? then old(p.backupCookies) else old(p.cookies))
    ensures p.backupCookies == old(p.backupCookies) && p.updatedAt == old(p.updatedAt)
    ensures p.configuredBase == old(p.configuredBase)
  {
    if !p.isAuthenticated {
      return Error(401);
    }
    var content := p.FetchManifest(None, origin);
    r := Served(content);
  }

  /** `/stream/proxy`: 401 until the relay holds cookies; otherwise the
      generic relay request, 502 when it gives no body. */
  method ProxyStreamUrl(p: P.StreamProxy, url: string, origin: P.Origin) returns (r: Reply<(seq<Byte>, string)>)
    ensures !p.isAuthenticated ==> r == Error(401)
    ensures p.isAuthenticated ==>
              var response := origin(p.RequestUrl(url), p.cookies);
              && (P.IsOk(response) <==> r.Ok?)
              && (!P.IsOk(response) ==> r == Error(502))
              && (r.Ok? ==> r.value.0 == response.body)
  {
    if !p.isAuthenticated {
      return Error(401);
    }
    var content, contentType := p.ProxyRequest(url, origin);
    if content.None? {
      return Error(502);
    }
    r := Ok((content.value, contentType));
  }

  /** `/stream/segment?url=`: 401 until the relay holds cookies; a URL
      ending in `.m3u8` is a sub-playlist, fetched and rewritten; anything
      else is a segment, fetched with the retry allowed; 502 on failure. */
  method ProxySegmentByUrl(p: P.StreamProxy, url: string, origin: P.Origin) returns (r: Reply<Payload>)
    requires p.Valid()
    modifies p
    ensures p.Valid()
    ensures !old(p.isAuthenticated) ==> r == Error(401) && p.cookies == old(p.cookies) && !p.isAuthenticated
    ensures old(p.isAuthenticated) && EndsWith(url, ".m3u8") ==>
              var a := P.Attempt(url, true, old(p.cookies), old(p.backupCookies), origin);
              && r == Served(AsPlaylist(P.ManifestResult(a, url, old(p.ProxyBaseUrl()))))
              && p.cookies == (if a.BackupOk? then old(p.backupCookies) else old(p.cookies))
    ensures old(p.isAuthenticated) && !EndsWith(url, ".m3u8") ==>
              var a := P.Attempt(url, true, old(p.cookies), old(p.backupCookies), origin);
              && r == Served(AsMedia(P.SegmentResult(a)))
              && p.cookies == (if a.BackupOk? then old(p.backupCookies) else old(p.cookies))
    ensures p.backupCookies == old(p.backupCookies) && p.updatedAt == old(p.updatedAt)
    ensures p.configuredBase == old(p.configuredBase)
  {
    if !p.isAuthenticated {
      return Error(401);
    }
    if EndsWith(url, ".m3u8") {
      var content := p.FetchManifest(Some(url), origin);
      r := Served(AsPlaylist(content));
    } else {
      var content := p.FetchSegment(url, true, origin);
      r := Served(AsMedia(content));
    }
  }

  /** `/stream/segment/{path}`: 401 until the relay holds cookies;
      otherwise the segment at the playlist directory followed by `path`. */
  method ProxySegmentByPath(p: P.StreamProxy, path: string, origin: P.Origin) returns (r: Reply<seq<Byte>>)
    requires p.Valid()
    modifies p
    ensures p.Valid()
    ensures !old(p.isAuthenticated) ==> r == Error(401) && p.cookies == old(p.cookies) && !p.isAuthenticated
    ensures old(p.isAuthenticated) ==>
              var a := P.Attempt(p.baseUrl + path, true, old(p.cookies), old(p.backupCookies), origin);
              && r == Served(P.SegmentResult(a))
              && p.cookies == (if a.BackupOk? then old(p.backupCookies) else old(p.cookies))
    ensures p.backupCookies == old(p.backupCookies) && p.updatedAt == old(p.updatedAt)
    ensures p.configuredBase == old(p.configuredBase)
  {
    if !p.isAuthenticated {
      return Error(401);
    }
    var content := p.FetchSegment(p.baseUrl + path, true, origin);
    r := Served(content);
  }
}
