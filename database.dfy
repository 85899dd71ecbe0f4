/** The ledger behind the betting server: the user table with credits, the
    cash-in and cash-out request tables with their pending / approved /
    rejected lifecycle, the settled-bet history, and support tickets with
    their messages. The in-memory development store is modelled for the
    operations that have one; the request tables follow the rules their
    SQL statements state (a primary key drawn from a serial counter, a
    foreign key to the user, column widths and a unique reference code). */
module Database {

  import opened Strings
  import opened Sorting

  datatype User = User(id: int, username: string, passwordHash: string, credits: int,
                       isAdmin: bool, role: string, createdAt: int)

  /** A user record as `create_user` hands it back: everything but the hash. */
  datatype PublicUser = PublicUser(id: int, username: string, credits: int, isAdmin: bool,
                                   role: string, createdAt: int)

  /** A user record as `get_user_by_id` hands it back. */
  datatype UserView = UserView(id: int, username: string, credits: int, isAdmin: bool, role: string)

  datatype RequestStatus = Pending | Approved | Rejected

  datatype CashIn = CashIn(id: int, userId: int, amount: int, referenceCode: string,
                           status: RequestStatus, approvedBy: Option<int>)

  datatype CashOut = CashOut(id: int, userId: int, amount: int, gcashNumber: string, gcashName: string,
                             referenceCode: string, status: RequestStatus, processedBy: Option<int>)

  datatype CashInApproval = CashInApproval(requestId: int, userId: int, amount: int, newCredits: int)

  datatype CashOutCreated = CashOutCreated(request: CashOut, newCredits: int)

  datatype CashOutApproval = CashOutApproval(requestId: int, userId: int, amount: int,
                                             gcashNumber: string, gcashName: string)

  datatype CashOutRejection = CashOutRejection(requestId: int, userId: int, amount: int, newCredits: int)

  datatype BetRecord = BetRecord(id: int, userId: int, username: string, fightNumber: int, amount: int,
                                 side: string, result: string, payout: int, createdAt: int)

  datatype TicketStatus = Open | Closed

  datatype Ticket = Ticket(id: int, userId: int, status: TicketStatus, createdAt: int, updatedAt: int,
                           closedAt: Option<int>)

  datatype Message = Message(id: int, ticketId: int, senderId: int, senderType: string, senderName: string,
                             text: string, createdAt: int)

  /** All tables and counters at one moment. */
  datatype Tables = Tables(
    users: map<int, User>, userCounter: int,
    cashins: map<int, CashIn>, cashinCounter: int,
    cashouts: map<int, CashOut>, cashoutCounter: int,
    betHistory: seq<BetRecord>,
    tickets: seq<Ticket>, ticketCounter: int,
    messages: seq<Message>, messageCounter: int)

  function Public(u: User): PublicUser {
    PublicUser(u.id, u.username, u.credits, u.isAdmin, u.role, u.createdAt)
  }

  /** Index of the first element `p` holds for. */
  function FirstMatch<T>(s: seq<T>, p: T -> bool): (r: Option<nat>)
    ensures r.Some? ==> r.value < |s| && p(s[r.value]) && forall j :: 0 <= j < r.value ==> !p(s[j])
    ensures r.None? ==> forall j :: 0 <= j < |s| ==> !p(s[j])
  {
    if s == [] then None
    else if p(s[0]) then Some(0)
    else match FirstMatch(s[1..], p)
      case None => None
      case Some(i) => Some(i + 1)
  }

  function OfUser(userId: int): BetRecord -> bool {
    (b: BetRecord) => b.userId == userId
  }

  function BetCreatedAt(b: BetRecord): int { b.createdAt }

  function OfTicket(ticketId: int): Message -> bool {
    (m: Message) => m.ticketId == ticketId
  }

  function MessageCreatedAt(m: Message): int { m.createdAt }

  predicate IsOpenTicketOf(t: Ticket, userId: int) { t.userId == userId && t.status == Open }

  /** The ticket list after a message to ticket `ticketId` at `now`: the
      first ticket with that id has its activity stamp moved. */
  function Touched(ts: seq<Ticket>, ticketId: int, now: int): seq<Ticket> {
    match FirstMatch(ts, (t: Ticket) => t.id == ticketId)
    case None => ts
    case Some(i) => ts[i := ts[i].(updatedAt := now)]
  }

  /** The `UPDATE support_tickets ... WHERE id = ...` stamping one ticket's
      activity: the first ticket with that id, when there is one. */
  method TouchTicket(ts: seq<Ticket>, ticketId: int, now: int) returns (r: seq<Ticket>)
    ensures r == Touched(ts, ticketId, now)
    ensures |r| == |ts| && forall i :: 0 <= i < |ts| ==> r[i].id == ts[i].id
  {
    var i := 0;
    while i < |ts|
      invariant 0 <= i <= |ts|
      invariant forall j :: 0 <= j < i ==> ts[j].id != ticketId
    {
      if ts[i].id == ticketId {
        assert FirstMatch(ts, (x: Ticket) => x.id == ticketId) == Some(i);
        return ts[i := ts[i].(updatedAt := now)];
      }
      i := i + 1;
    }
    assert FirstMatch(ts, (x: Ticket) => x.id == ticketId) == None;
    return ts;
  }

  /** The records of one user, newest first (records stamped alike keep
      their order), at most `limit` of them. */
  function UserBetHistory(history: seq<BetRecord>, userId: int, limit: int): seq<BetRecord> {
    var sorted := Sort(Filter(history, OfUser(userId)), BetCreatedAt, true);
    sorted[..SliceIndex(limit, |sorted|)]
  }

  /** The history holds the user's records only, newest first. */
  lemma UserBetHistoryOrdered(history: seq<BetRecord>, userId: int, limit: int)
    ensures var r := UserBetHistory(history, userId, limit);
            && (forall k :: 0 <= k < |r| ==> r[k].userId == userId)
            && (forall i, j :: 0 <= i < j < |r| ==> r[i].createdAt >= r[j].createdAt)
  {
    var sorted := Sort(Filter(history, OfUser(userId)), BetCreatedAt, true);
    SortFilter(history, OfUser(userId), BetCreatedAt, true);
    var hi := SliceIndex(limit, |sorted|);
    var r := sorted[..hi];
    SortedSlice(sorted, BetCreatedAt, true, 0, hi);
    forall k | 0 <= k < |r| ensures r[k].userId == userId {
      assert r[k] == sorted[k];
      assert OfUser(userId)(sorted[k]);
    }
    forall i, j | 0 <= i < j < |r| ensures r[i].createdAt >= r[j].createdAt {
      assert Before(true, BetCreatedAt(r[i]), BetCreatedAt(r[j]));
    }
  }

  /** As many records as the limit allows, and all of the user's records
      when the limit is at least the length of the whole history. */
  lemma UserBetHistoryCount(history: seq<BetRecord>, userId: int, limit: int)
    ensures var r := UserBetHistory(history, userId, limit);
            && (limit >= 0 ==> |r| == (if limit < |Filter(history, OfUser(userId))| then limit
                                       else |Filter(history, OfUser(userId))|))
            && (limit >= |history| ==> multiset(r) == multiset(Filter(history, OfUser(userId))))
  {
    var f := Filter(history, OfUser(userId));
    var sorted := Sort(f, BetCreatedAt, true);
    SortSorted(f, BetCreatedAt, true);
    assert |sorted| == |f| by {
      assert |multiset(sorted)| == |multiset(f)|;
    }
    if limit >= |history| {
      assert sorted[..SliceIndex(limit, |sorted|)] == sorted;
    }
  }

  /** The messages of one ticket, oldest first (messages stamped alike
      keep their order), the last `limit` of them; a limit of 0 keeps them
      all, as the slice `[-0:]` is the whole list. */
  function TicketMessages(messages: seq<Message>, ticketId: int, limit: int): seq<Message> {
    var sorted := Sort(Filter(messages, OfTicket(ticketId)), MessageCreatedAt, false);
    sorted[SliceIndex(-limit, |sorted|)..]
  }

  /** The messages shown belong to the ticket. */
  lemma TicketMessagesOfTicket(messages: seq<Message>, ticketId: int, limit: int)
    ensures var r := TicketMessages(messages, ticketId, limit);
            forall k :: 0 <= k < |r| ==> r[k].ticketId == ticketId
  {
    var sorted := Sort(Filter(messages, OfTicket(ticketId)), MessageCreatedAt, false);
    SortFilter(messages, OfTicket(ticketId), MessageCreatedAt, false);
    var lo := SliceIndex(-limit, |sorted|);
    var r := sorted[lo..];
    forall k | 0 <= k < |r| ensures r[k].ticketId == ticketId {
      assert r[k] == sorted[lo + k];
      assert OfTicket(ticketId)(sorted[lo + k]);
    }
  }

  /** The messages shown are oldest first. */
  lemma TicketMessagesOrdered(messages: seq<Message>, ticketId: int, limit: int)
    ensures var r := TicketMessages(messages, ticketId, limit);
            forall i, j :: 0 <= i < j < |r| ==> r[i].createdAt <= r[j].createdAt
  {
    var f := Filter(messages, OfTicket(ticketId));
    var sorted := Sort(f, MessageCreatedAt, false);
    SortSorted(f, MessageCreatedAt, false);
    var lo := SliceIndex(-limit, |sorted|);
    var r := sorted[lo..];
    SortedSlice(sorted, MessageCreatedAt, false, lo, |sorted|);
    forall i, j | 0 <= i < j < |r| ensures r[i].createdAt <= r[j].createdAt {
      assert Before(false, MessageCreatedAt(r[i]), MessageCreatedAt(r[j]));
    }
  }

  /** The last `limit` messages when the limit is positive, and the whole
      ordered list when it is 0. */
  lemma TicketMessagesCount(messages: seq<Message>, ticketId: int, limit: int)
    ensures var r := TicketMessages(messages, ticketId, limit);
            && (limit > 0 ==> |r| == (if limit < |Filter(messages, OfTicket(ticketId))| then limit
                                      else |Filter(messages, OfTicket(ticketId))|))
            && (limit == 0 ==> r == Sort(Filter(messages, OfTicket(ticketId)), MessageCreatedAt, false))
  {
    var f := Filter(messages, OfTicket(ticketId));
    var sorted := Sort(f, MessageCreatedAt, false);
    SortSorted(f, MessageCreatedAt, false);
    assert |sorted| == |f| by {
      assert |multiset(sorted)| == |multiset(f)|;
    }
  }

  /** The widths and the unique reference code the cash-out table declares:
      an insert that breaks one of them fails. */
  predicate CashOutRowFits(cashouts: map<int, CashOut>, gcashNumber: string, gcashName: string, referenceCode: string) {
    && |gcashNumber| <= 20 && |gcashName| <= 100 && |referenceCode| <= 20
    && forall k :: k in cashouts ==> cashouts[k].referenceCode != referenceCode
  }

  predicate CashInRowFits(cashins: map<int, CashIn>, referenceCode: string) {
    |referenceCode| <= 20 && forall k :: k in cashins ==> cashins[k].referenceCode != referenceCode
  }

  class Ledger {
    var users: map<int, User>
    var userCounter: int
    var cashins: map<int, CashIn>
    var cashinCounter: int
    var cashouts: map<int, CashOut>
    var cashoutCounter: int
    var betHistory: seq<BetRecord>
    var tickets: seq<Ticket>
    var ticketCounter: int
    var messages: seq<Message>
    var messageCounter: int

    function Snapshot(): Tables
      reads this
    {
      Tables(users, userCounter, cashins, cashinCounter, cashouts, cashoutCounter,
             betHistory, tickets, ticketCounter, messages, messageCounter)
    }

    /** Keys are the records' own ids, drawn from their counters; user
        names are unique; every request belongs to an existing user; history
        ids count up from 1; ticket ids are distinct. */
    predicate Valid()
      reads this
    {
      && userCounter >= 0 && cashinCounter >= 0 && cashoutCounter >= 0 && ticketCounter >= 0
      && (forall k :: k in users ==> users[k].id == k && 1 <= k <= userCounter)
      && (forall a, b :: a in users && b in users && a != b ==> users[a].username != users[b].username)
      && (forall k :: k in cashins ==> cashins[k].id == k && 1 <= k <= cashinCounter && cashins[k].userId in users)
      && (forall k :: k in cashouts ==> cashouts[k].id == k && 1 <= k <= cashoutCounter && cashouts[k].userId in users)
      && (forall i :: 0 <= i < |betHistory| ==> betHistory[i].id == i + 1)
      && (forall i :: 0 <= i < |tickets| ==> 1 <= tickets[i].id <= ticketCounter)
      && (forall i, j :: 0 <= i < j < |tickets| ==> tickets[i].id != tickets[j].id)
    }

    /** The development store as `init_db` sets it up: the administrator as
        user 1 and the user counter at 1. */
    constructor InitLocal(adminHash: string, now: int)
      ensures Valid()
      ensures users == map[1 := User(1, "admin", adminHash, 999999, true, "admin", now)] && userCounter == 1
      ensures cashins == map[] && cashouts == map[] && cashinCounter == 0 && cashoutCounter == 0
      ensures betHistory == [] && tickets == [] && messages == [] && ticketCounter == 0 && messageCounter == 0
    {
      users := map[1 := User(1, "admin", adminHash, 999999, true, "admin", now)];
      userCounter := 1;
      cashins := map[];
      cashinCounter := 0;
      cashouts := map[];
      cashoutCounter := 0;
      betHistory := [];
      tickets := [];
      ticketCounter := 0;
      messages := [];
      messageCounter := 0;
    }

    predicate UsernameTaken(username: string)
      reads this
    {
      exists k :: k in users && users[k].username == username
    }

    /** `create_user`: a taken name is refused; otherwise the user gets the
        next id, 1000 credits and the plain `user` role. */
    method CreateUser(username: string, passwordHash: string, now: int) returns (r: Option<PublicUser>)
      requires Valid()
      modifies this
      ensures Valid()
      ensures old(UsernameTaken(username)) ==> r == None && Snapshot() == old(Snapshot())
      ensures !old(UsernameTaken(username)) ==>
                var u := User(old(userCounter) + 1, username, passwordHash, 1000, false, "user", now);
                && r == Some(Public(u))
                && Snapshot() == old(Snapshot()).(users := old(users)[u.id := u], userCounter := u.id)
    {
      if UsernameTaken(username) {
        return None;
      }
      userCounter := userCounter + 1;
      var u := User(userCounter, username, passwordHash, 1000, false, "user", now);
      users := users[userCounter := u];
      r := Some(Public(u));
    }

    /** `get_user_by_id`. */
    function GetUserById(id: int): (r: Option<UserView>)
      reads this
      ensures r.Some? <==> id in users
      ensures r.Some? ==> && r.value.username == users[id].username && r.value.credits == users[id].credits
                          && r.value.isAdmin == users[id].isAdmin && r.value.role == users[id].role
      ensures r.Some? && Valid() ==> r.value.id == id
    {
      if id in users then
        var u := users[id];
        Some(UserView(u.id, u.username, u.credits, u.isAdmin, u.role))
      else None
    }

    /** `update_credits`: adds `amount` (which may be negative) to the
        balance and gives the new balance. */
    method UpdateCredits(userId: int, amount: int) returns (r: Option<int>)
      requires Valid()
      modifies this
      ensures Valid()
      ensures userId !in old(users) ==> r == None && Snapshot() == old(Snapshot())
      ensures userId in old(users) ==>
                && r == Some(old(users)[userId].credits + amount)
                && Snapshot() == old(Snapshot()).(users := old(users)[userId := old(users)[userId].(credits := r.value)])
    {
      if userId !in users {
        return None;
      }
      var c := users[userId].credits + amount;
      users := users[userId := users[userId].(credits := c)];
      r := Some(c);
    }

    /** `set_credits`: replaces the balance. */
    method SetCredits(userId: int, credits: int) returns (r: Option<int>)
      requires Valid()
      modifies this
      ensures Valid()
      ensures userId !in old(users) ==> r == None && Snapshot() == old(Snapshot())
      ensures userId in old(users) ==>
                && r == Some(credits)
                && Snapshot() == old(Snapshot()).(users := old(users)[userId := old(users)[userId].(credits := credits)])
    {
      if userId !in users {
        return None;
      }
      users := users[userId := users[userId].(credits := credits)];
      r := Some(credits);
    }

    /** `create_cashin_request`: a pending request under the next id; it
        fails for an unknown user or a reference code already in use. */
    method CreateCashinRequest(userId: int, amount: int, referenceCode: string) returns (r: Option<CashIn>)
      requires Valid()
      modifies this
      ensures Valid()
      ensures !(userId in old(users) && CashInRowFits(old(cashins), referenceCode)) ==>
                r == None && Snapshot() == old(Snapshot())
      ensures userId in old(users) && CashInRowFits(old(cashins), referenceCode) ==>
                var c := CashIn(old(cashinCounter) + 1, userId, amount, referenceCode, Pending, None);
                && r == Some(c)
                && Snapshot() == old(Snapshot()).(cashins := old(cashins)[c.id := c], cashinCounter := c.id)
    {
      if userId !in users || !CashInRowFits(cashins, referenceCode) {
        return None;
      }
      cashinCounter := cashinCounter + 1;
      var c := CashIn(cashinCounter, userId, amount, referenceCode, Pending, None);
      cashins := cashins[c.id := c];
      r := Some(c);
    }

    predicate IsPendingCashin(requestId: int)
      reads this
    {
      requestId in cashins && cashins[requestId].status == Pending
    }

    predicate IsPendingCashout(requestId: int)
      reads this
    {
      requestId in cashouts && cashouts[requestId].status == Pending
    }

    /** `approve_cashin_request`: a pending request becomes approved and its
        amount is added to the user's balance; any other id gives None. */
    method ApproveCashinRequest(requestId: int, adminId: int) returns (r: Option<CashInApproval>)
      requires Valid()
      modifies this
      ensures Valid()
      ensures !old(IsPendingCashin(requestId)) ==> r == None && Snapshot() == old(Snapshot())
      ensures old(IsPendingCashin(requestId)) ==>
                var c := old(cashins)[requestId];
                var u := old(users)[c.userId];
                && r == Some(CashInApproval(requestId, c.userId, c.amount, u.credits + c.amount))
                && Snapshot() == old(Snapshot()).(
                     cashins := old(cashins)[requestId := c.(status := Approved, approvedBy := Some(adminId))],
                     users := old(users)[c.userId := u.(credits := u.credits + c.amount)])
    {
      if !IsPendingCashin(requestId) {
        return None;
      }
      var c := cashins[requestId];
      cashins := cashins[requestId := c.(status := Approved, approvedBy := Some(adminId))];
      var u := users[c.userId];
      users := users[c.userId := u.(credits := u.credits + c.amount)];
      r := Some(CashInApproval(requestId, c.userId, c.amount, u.credits + c.amount));
    }

    /** `reject_cashin_request`: a pending request becomes rejected; the
        answer is true whether or not anything was pending. */
    method RejectCashinRequest(requestId: int, adminId: int) returns (ok: bool)
      requires Valid()
      modifies this
      ensures Valid()
      ensures ok
      ensures !old(IsPendingCashin(requestId)) ==> Snapshot() == old(Snapshot())
      ensures old(IsPendingCashin(requestId)) ==>
                Snapshot() == old(Snapshot()).(cashins := old(cashins)[requestId :=
                  old(cashins)[requestId].(status := Rejected, approvedBy := Some(adminId))])
    {
      if IsPendingCashin(requestId) {
        cashins := cashins[requestId := cashins[requestId].(status := Rejected, approvedBy := Some(adminId))];
      }
      ok := true;
    }

    /** `create_cashout_request` as written: the balance is checked and the
        amount deducted, and only then is the request inserted, outside any
        transaction. When the insert breaks a column rule the deduction has
        already been made and the answer is None. */
    method CreateCashoutRequestAsWritten(userId: int, amount: int, gcashNumber: string, gcashName: string,
                                         referenceCode: string) returns (r: Option<CashOutCreated>)
      requires Valid()
      modifies this
      ensures Valid()
      ensures (userId !in old(users) || old(users)[userId].credits < amount) ==>
                r == None && Snapshot() == old(Snapshot())
      ensures userId in old(users) && old(users)[userId].credits >= amount
              && !CashOutRowFits(old(cashouts), gcashNumber, gcashName, referenceCode) ==>
                var u := old(users)[userId];
                && r == None
                && Snapshot() == old(Snapshot()).(users := old(users)[userId := u.(credits := u.credits - amount)])
      ensures userId in old(users) && old(users)[userId].credits >= amount
              && CashOutRowFits(old(cashouts), gcashNumber, gcashName, referenceCode) ==>
                var u := old(users)[userId];
                var c := CashOut(old(cashoutCounter) + 1, userId, amount, gcashNumber, gcashName, referenceCode, Pending, None);
                && r == Some(CashOutCreated(c, u.credits - amount))
                && Snapshot() == old(Snapshot()).(
                     users := old(users)[userId := u.(credits := u.credits - amount)],
                     cashouts := old(cashouts)[c.id := c], cashoutCounter := c.id)
    {
      if userId !in users || users[userId].credits < amount {
        return None;
      }
      var u := users[userId];
      users := users[userId := u.(credits := u.credits - amount)];
      if !CashOutRowFits(cashouts, gcashNumber, gcashName, referenceCode) {
        return None;
      }
      cashoutCounter := cashoutCounter + 1;
      var c := CashOut(cashoutCounter, userId, amount, gcashNumber, gcashName, referenceCode, Pending, None);
      cashouts := cashouts[c.id := c];
      r := Some(CashOutCreated(c, u.credits - amount));
    }

    /** `create_cashout_request` as it is meant to behave: the hold on the
        balance and the new request stand or fall together, so a refused
        request leaves every balance as it was. */
    method CreateCashoutRequest(userId: int, amount: int, gcashNumber: string, gcashName: string,
                                referenceCode: string) returns (r: Option<CashOutCreated>)
      requires Valid()
      modifies this
      ensures Valid()
      ensures r.None? ==> Snapshot() == old(Snapshot())
      ensures r.None? <==> (userId !in old(users) || old(users)[userId].credits < amount
                            || !CashOutRowFits(old(cashouts), gcashNumber, gcashName, referenceCode))
      ensures r.Some? ==>
                var u := old(users)[userId];
                var c := CashOut(old(cashoutCounter) + 1, userId, amount, gcashNumber, gcashName, referenceCode, Pending, None);
                && r == Some(CashOutCreated(c, u.credits - amount))
                && Snapshot() == old(Snapshot()).(
                     users := old(users)[userId := u.(credits := u.credits - amount)],
                     cashouts := old(cashouts)[c.id := c], cashoutCounter := c.id)
    {
      if userId !in users || users[userId].credits < amount
         || !CashOutRowFits(cashouts, gcashNumber, gcashName, referenceCode) {
        return None;
      }
      var u := users[userId];
      users := users[userId := u.(credits := u.credits - amount)];
      cashoutCounter := cashoutCounter + 1;
      var c := CashOut(cashoutCounter, userId, amount, gcashNumber, gcashName, referenceCode, Pending, None);
      cashouts := cashouts[c.id := c];
      r := Some(CashOutCreated(c, u.credits - amount));
    }

    /** `approve_cashout_request`: a pending request becomes approved; the
        credits were held when it was made, so no balance changes. */
    method ApproveCashoutRequest(requestId: int, staffId: int) returns (r: Option<CashOutApproval>)
      requires Valid()
      modifies this
      ensures Valid()
      ensures !old(IsPendingCashout(requestId)) ==> r == None && Snapshot() == old(Snapshot())
      ensures old(IsPendingCashout(requestId)) ==>
                var c := old(cashouts)[requestId];
                && r == Some(CashOutApproval(requestId, c.userId, c.amount, c.gcashNumber, c.gcashName))
                && Snapshot() == old(Snapshot()).(
                     cashouts := old(cashouts)[requestId := c.(status := Approved, processedBy := Some(staffId))])
    {
      if !IsPendingCashout(requestId) {
        return None;
      }
      var c := cashouts[requestId];
      cashouts := cashouts[requestId := c.(status := Approved, processedBy := Some(staffId))];
      r := Some(CashOutApproval(requestId, c.userId, c.amount, c.gcashNumber, c.gcashName));
    }

    /** `reject_cashout_request`: a pending request becomes rejected and its
        held amount goes back to the user. */
    method RejectCashoutRequest(requestId: int, staffId: int) returns (r: Option<CashOutRejection>)
      requires Valid()
      modifies this
      ensures Valid()
      ensures !old(IsPendingCashout(requestId)) ==> r == None && Snapshot() == old(Snapshot())
      ensures old(IsPendingCashout(requestId)) ==>
                var c := old(cashouts)[requestId];
                var u := old(users)[c.userId];
                && r == Some(CashOutRejection(requestId, c.userId, c.amount, u.credits + c.amount))
                && Snapshot() == old(Snapshot()).(
                     cashouts := old(cashouts)[requestId := c.(status := Rejected, processedBy := Some(staffId))],
                     users := old(users)[c.userId := u.(credits := u.credits + c.amount)])
    {
      if !IsPendingCashout(requestId) {
        return None;
      }
      var c := cashouts[requestId];
      var u := users[c.userId];
      users := users[c.userId := u.(credits := u.credits + c.amount)];
      cashouts := cashouts[requestId := c.(status := Rejected, processedBy := Some(staffId))];
      r := Some(CashOutRejection(requestId, c.userId, c.amount, u.credits + c.amount));
    }

    /** `save_bet_to_history`: appends the record under the next id. */
    method SaveBetToHistory(userId: int, username: string, fightNumber: int, amount: int, side: string,
                            result: string, payout: int, now: int) returns (ok: bool)
      requires Valid()
      modifies this
      ensures Valid()
      ensures ok
      ensures Snapshot() == old(Snapshot()).(betHistory := old(betHistory) +
                [BetRecord(|old(betHistory)| + 1, userId, username, fightNumber, amount, side, result, payout, now)])
    {
      betHistory := betHistory + [BetRecord(|betHistory| + 1, userId, username, fightNumber, amount, side, result, payout, now)];
      ok := true;
    }

    /** `get_user_bet_history(user_id, limit)`. */
    function GetUserBetHistory(userId: int, limit: int): seq<BetRecord>
      reads this
    {
      UserBetHistory(betHistory, userId, limit)
    }

    /** `get_or_create_ticket`: the user's first open ticket if there is
        one, otherwise a new open ticket under the next id. */
    method GetOrCreateTicket(userId: int, now: int) returns (t: Ticket)
      requires Valid()
      modifies this
      ensures Valid()
      ensures match FirstMatch(old(tickets), (x: Ticket) => IsOpenTicketOf(x, userId))
              case Some(i) => t == old(tickets)[i] && Snapshot() == old(Snapshot())
              case None =>
                && t == Ticket(old(ticketCounter) + 1, userId, Open, now, now, None)
                && Snapshot() == old(Snapshot()).(tickets := old(tickets) + [t], ticketCounter := t.id)
    {
      var i := 0;
      while i < |tickets|
        invariant 0 <= i <= |tickets|
        invariant forall j :: 0 <= j < i ==> !IsOpenTicketOf(tickets[j], userId)
      {
        if IsOpenTicketOf(tickets[i], userId) {
          assert FirstMatch(tickets, (x: Ticket) => IsOpenTicketOf(x, userId)) == Some(i);
          return tickets[i];
        }
        i := i + 1;
      }
      ticketCounter := ticketCounter + 1;
      t := Ticket(ticketCounter, userId, Open, now, now, None);
      tickets := tickets + [t];
    }

    /** `add_support_message`: the message under the next id, signed with
        the sender's user name (`Unknown` for an id without a user), and the
        ticket's activity stamp moved. */
    method AddSupportMessage(ticketId: int, senderId: int, senderType: string, text: string, now: int)
      returns (m: Message)
      requires Valid()
      modifies this
      ensures Valid()
      ensures m == Message(old(messageCounter) + 1, ticketId, senderId, senderType,
                           if senderId in old(users) then old(users)[senderId].username else "Unknown", text, now)
      ensures Snapshot() == old(Snapshot()).(messages := old(messages) + [m], messageCounter := m.id,
                                             tickets := Touched(old(tickets), ticketId, now))
    {
      var senderName := "Unknown";
      if senderId in users {
        senderName := users[senderId].username;
      }
      m := Message(messageCounter + 1, ticketId, senderId, senderType, senderName, text, now);
      var touched := TouchTicket(tickets, ticketId, now);
      assert forall i :: 0 <= i < |touched| ==> 1 <= touched[i].id <= ticketCounter;
      messageCounter, messages, tickets := m.id, messages + [m], touched;
    }

    /** `close_ticket`: the ticket with that id is closed and stamped. */
    method CloseTicket(ticketId: int, now: int) returns (found: bool)
      requires Valid()
      modifies this
      ensures Valid()
      ensures match FirstMatch(old(tickets), (x: Ticket) => x.id == ticketId)
              case Some(i) =>
                && found
                && Snapshot() == old(Snapshot()).(tickets := old(tickets)[i := old(tickets)[i].(status := Closed, closedAt := Some(now))])
              case None => !found && Snapshot() == old(Snapshot())
    {
      var i := 0;
      while i < |tickets|
        invariant 0 <= i <= |tickets|
        invariant forall j :: 0 <= j < i ==> tickets[j].id != ticketId
      {
        if tickets[i].id == ticketId {
          assert FirstMatch(tickets, (x: Ticket) => x.id == ticketId) == Some(i);
          tickets := tickets[i := tickets[i].(status := Closed, closedAt := Some(now))];
          return true;
        }
        i := i + 1;
      }
      return false;
    }

    /** `get_ticket_messages(ticket_id, limit)`. */
    function GetTicketMessages(ticketId: int, limit: int): seq<Message>
      reads this
    {
      TicketMessages(messages, ticketId, limit)
    }
  }

  /** A cash-out that is made and then rejected leaves the user's balance
      where it was. */
  method CashoutRejectRestores(l: Ledger, userId: int, amount: int, gcashNumber: string, gcashName: string,
                               referenceCode: string, staffId: int)
    returns (created: Option<CashOutCreated>, rejected: Option<CashOutRejection>)
    requires l.Valid()
    modifies l
    ensures l.Valid()
    ensures created.Some? ==> && rejected.Some? && userId in old(l.users) && userId in l.users
                              && l.users[userId] == old(l.users)[userId]
    ensures created.None? ==> l.Snapshot() == old(l.Snapshot())
  {
    created := l.CreateCashoutRequest(userId, amount, gcashNumber, gcashName, referenceCode);
    if created.Some? {
      rejected := l.RejectCashoutRequest(created.value.request.id, staffId);
    } else {
      rejected := None;
    }
  }

  /** A cash-in is credited at most once: approving the same request a
      second time is refused and changes nothing. */
  method CashinApprovedOnce(l: Ledger, requestId: int, adminId: int)
    returns (first: Option<CashInApproval>, second: Option<CashInApproval>)
    requires l.Valid()
    modifies l
    ensures l.Valid()
    ensures second == None
    ensures first.Some? ==> first.value.userId in old(l.users)
    ensures first.Some? ==> l.users == old(l.users)[first.value.userId :=
              old(l.users)[first.value.userId].(credits := old(l.users)[first.value.userId].credits + first.value.amount)]
    ensures first.None? ==> l.Snapshot() == old(l.Snapshot())
  {
    first := l.ApproveCashinRequest(requestId, adminId);
    second := l.ApproveCashinRequest(requestId, adminId);
  }
}
