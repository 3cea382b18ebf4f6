/** The payment engine: accounts, the record store and the per-session
    insufficient-balance hint, and the four operations that change them. */
module Payments {
  import opened Currencies
  import opened Records

  /** A user's account: its single currency and its balance in that currency. */
  datatype Account = Account(currency: Currency, balance: Money)

  datatype Error = InsufficientBalance | RecipientNotFound | NotFound

  datatype Outcome = Done | Failed(error: Error)

  /** The value of the hint while no accept has failed in the session. */
  const NoHint: int := -1

  /** Everything the operations read and write: the accounts by key, the stored
      records in insertion order, the key the next record will get, and the id
      of the last request that could not be accepted for lack of funds. */
  datatype State = State(
    accounts: map<AccountId, Account>,
    records: seq<Transaction>,
    nextId: int,
    hint: int)

  /** What an operation reports, and the state it leaves behind. */
  datatype Step = Step(outcome: Outcome, post: State)

  /** What the database guarantees: every record refers to existing accounts,
      and records carry increasing keys below the next key to hand out. */
  ghost predicate Consistent(st: State)
  {
    (forall i :: 0 <= i < |st.records| ==>
       st.records[i].sender in st.accounts && st.records[i].receiver in st.accounts &&
       st.records[i].id < st.nextId) &&
    (forall i, j :: 0 <= i < j < |st.records| ==> st.records[i].id < st.records[j].id)
  }

  /** The same accounts exist before and after, each in the same currency. */
  ghost predicate SameAccounts(before: map<AccountId, Account>, after: map<AccountId, Account>)
  {
    after.Keys == before.Keys &&
    forall a :: a in before ==> after[a].currency == before[a].currency
  }

  /** send_payment. The balance check comes first; the recipient is then looked
      up; the sender's and the recipient's accounts are loaded as two separate
      copies, changed, and saved sender first, so when both are the same
      account the recipient's save is the one that stays. */
  function Send(st: State, convert: Converter, me: AccountId, to: AccountId, amount: Money, now: Time): (r: Step)
    requires me in st.accounts
    ensures r.outcome == Failed(InsufficientBalance) <==> st.accounts[me].balance < amount
    ensures r.outcome == Failed(RecipientNotFound) <==> amount <= st.accounts[me].balance && to !in st.accounts
    ensures r.outcome.Done? <==> amount <= st.accounts[me].balance && to in st.accounts
    ensures r.outcome.Failed? ==> r.post == st
    ensures r.outcome.Done? ==>
              SameAccounts(st.accounts, r.post.accounts) &&
              r.post.records == st.records + [Transaction(st.nextId, me, to, amount, false, now)] &&
              r.post.nextId == st.nextId + 1 && r.post.hint == st.hint
    ensures r.outcome.Done? ==>
              forall a :: a in st.accounts && a != me && a != to ==> r.post.accounts[a] == st.accounts[a]
    ensures r.outcome.Done? ==>
              r.post.accounts[to].balance ==
              st.accounts[to].balance + convert(st.accounts[me].currency, st.accounts[to].currency, amount)
    ensures r.outcome.Done? && me != to ==>
              r.post.accounts[me].balance == st.accounts[me].balance - amount &&
              r.post.accounts[me].balance >= 0
  {
    var sender := st.accounts[me];
    if sender.balance < amount then Step(Failed(InsufficientBalance), st)
    else if to !in st.accounts then Step(Failed(RecipientNotFound), st)
    else
      var receiver := st.accounts[to];
      var debited := sender.(balance := sender.balance - amount);
      var credited := receiver.(balance := receiver.balance + convert(sender.currency, receiver.currency, amount));
      Step(Done, st.(accounts := st.accounts[me := debited][to := credited],
                     records := st.records + [Transaction(st.nextId, me, to, amount, false, now)],
                     nextId := st.nextId + 1))
  }

  /** request_payment: store an outstanding request from `me` to the payer.
      No balance is read or written. */
  function Request(st: State, me: AccountId, payer: AccountId, amount: Money, now: Time): (r: Step)
    ensures r.outcome == Failed(RecipientNotFound) <==> payer !in st.accounts
    ensures r.outcome.Done? <==> payer in st.accounts
    ensures r.outcome.Failed? ==> r.post == st
    ensures r.post.accounts == st.accounts && r.post.hint == st.hint
    ensures r.outcome.Done? ==>
              r.post.records == st.records + [Transaction(st.nextId, me, payer, amount, true, now)] &&
              r.post.nextId == st.nextId + 1
  {
    if payer !in st.accounts then Step(Failed(RecipientNotFound), st)
    else
      Step(Done, st.(records := st.records + [Transaction(st.nextId, me, payer, amount, true, now)],
                     nextId := st.nextId + 1))
  }

  /** accept_request. The stored amount is converted from the requester's
      currency to the payer's; if the payer cannot cover it, only the hint
      changes. Otherwise the payer is debited the converted amount, the
      requester credited the stored amount, and the flag cleared. The record's
      flag is not consulted. Both accounts are separate copies saved requester
      first, so the payer's save is the one that stays when they coincide. */
  function Accept(st: State, convert: Converter, id: int, now: Time): (r: Step)
    requires Consistent(st)
    ensures r.outcome == Failed(NotFound) <==> forall i :: 0 <= i < |st.records| ==> st.records[i].id != id
    ensures r.outcome != Failed(RecipientNotFound)
    ensures r.outcome == Failed(NotFound) ==> r.post == st
    ensures r.outcome == Failed(InsufficientBalance) ==> r.post == st.(hint := id)
    ensures r.outcome.Done? ==> r.post.hint == st.hint && r.post.nextId == st.nextId
    ensures IndexOf(st.records, id).Some? ==>
              var k := IndexOf(st.records, id).value;
              var t := st.records[k];
              var payee := st.accounts[t.sender];
              var payer := st.accounts[t.receiver];
              var converted := convert(payee.currency, payer.currency, t.amount);
              (r.outcome == Failed(InsufficientBalance) <==> payer.balance < converted) &&
              (r.outcome.Done? ==>
                 SameAccounts(st.accounts, r.post.accounts) &&
                 r.post.records == st.records[k := t.(request := false, modified := now)] &&
                 (forall a :: a in st.accounts && a != t.sender && a != t.receiver ==>
                                r.post.accounts[a] == st.accounts[a]) &&
                 r.post.accounts[t.receiver].balance == payer.balance - converted &&
                 r.post.accounts[t.receiver].balance >= 0 &&
                 (t.sender != t.receiver ==> r.post.accounts[t.sender].balance == payee.balance + t.amount))
  {
    match IndexOf(st.records, id)
    case None => Step(Failed(NotFound), st)
    case Some(k) =>
      var t := st.records[k];
      var payee := st.accounts[t.sender];
      var payer := st.accounts[t.receiver];
      var converted := convert(payee.currency, payer.currency, t.amount);
      if payer.balance < converted then Step(Failed(InsufficientBalance), st.(hint := id))
      else
        var credited := payee.(balance := payee.balance + t.amount);
        var debited := payer.(balance := payer.balance - converted);
        Step(Done, st.(accounts := st.accounts[t.sender := credited][t.receiver := debited],
                       records := st.records[k := t.(request := false, modified := now)]))
  }

  /** delete_request: clear the flag of the record with key `id`, whoever
      asks and whatever the flag was. No balance is read or written. */
  function Delete(st: State, id: int, now: Time): (r: Step)
    ensures r.outcome == Failed(NotFound) <==> forall i :: 0 <= i < |st.records| ==> st.records[i].id != id
    ensures r.outcome != Failed(RecipientNotFound) && r.outcome != Failed(InsufficientBalance)
    ensures r.outcome.Failed? ==> r.post == st
    ensures r.post.accounts == st.accounts && r.post.hint == st.hint && r.post.nextId == st.nextId
    ensures r.outcome.Done? ==>
              var k := IndexOf(st.records, id).value;
              r.post.records == st.records[k := st.records[k].(request := false, modified := now)]
  {
    match IndexOf(st.records, id)
    case None => Step(Failed(NotFound), st)
    case Some(k) =>
      var t := st.records[k];
      Step(Done, st.(records := st.records[k := t.(request := false, modified := now)]))
  }

  /** What the requests page shows an account. */
  datatype RequestsPage = RequestsPage(
    sent: seq<Transaction>,
    received: seq<Transaction>,
    insufficientBalanceId: int)

  /** requests: the account's outstanding sent and received requests, newest
      first, with the session's insufficient-balance hint. */
  function Requests(st: State, acct: AccountId): (page: RequestsPage)
    ensures forall t :: t in page.sent <==> t in st.records && t.sender == acct && t.request
    ensures forall t :: t in page.received <==> t in st.records && t.receiver == acct && t.request
    ensures forall t :: multiset(page.sent)[t] == if t.sender == acct && t.request then multiset(st.records)[t] else 0
    ensures forall t :: multiset(page.received)[t] == if t.receiver == acct && t.request then multiset(st.records)[t] else 0
    ensures NewestFirst(page.sent) && NewestFirst(page.received)
    ensures page.insufficientBalanceId == st.hint
  {
    RequestsPage(SentRequests(st.records, acct), ReceivedRequests(st.records, acct), st.hint)
  }

  /** The ledger as the views change it: accounts whose balances are updated in
      place, a record store that grows by `save()`, and the session hint. */
  class Bank {
    const convert: Converter
    var accounts: map<AccountId, Account>
    var records: seq<Transaction>
    var nextId: int
    var hint: int

    function Snapshot(): State
      reads this
    {
      State(accounts, records, nextId, hint)
    }

    ghost predicate Valid()
      reads this
    {
      Consistent(Snapshot())
    }

    /** A ledger over registered accounts, with no records yet and no hint. */
    constructor (convert: Converter, accounts: map<AccountId, Account>)
      ensures Valid()
      ensures this.convert == convert
      ensures Snapshot() == State(accounts, [], 1, NoHint)
    {
      this.convert := convert;
      this.accounts := accounts;
      this.records := [];
      this.nextId := 1;
      this.hint := NoHint;
    }

    method SendPayment(me: AccountId, to: AccountId, amount: Money, now: Time) returns (outcome: Outcome)
      requires Valid() && me in accounts
      modifies this
      ensures Valid()
      ensures Step(outcome, Snapshot()) == Send(old(Snapshot()), convert, me, to, amount, now)
    {
      var sender := accounts[me];
      if sender.balance < amount {
        return Failed(InsufficientBalance);
      }
      if to !in accounts {
        return Failed(RecipientNotFound);
      }
      var receiver := accounts[to];
      sender := sender.(balance := sender.balance - amount);
      receiver := receiver.(balance := receiver.balance + convert(sender.currency, receiver.currency, amount));
      accounts := accounts[me := sender];
      accounts := accounts[to := receiver];
      records := records + [Transaction(nextId, me, to, amount, false, now)];
      nextId := nextId + 1;
      outcome := Done;
    }

    method RequestPayment(me: AccountId, payer: AccountId, amount: Money, now: Time) returns (outcome: Outcome)
      requires Valid() && me in accounts
      modifies this
      ensures Valid()
      ensures Step(outcome, Snapshot()) == Request(old(Snapshot()), me, payer, amount, now)
    {
      if payer !in accounts {
        return Failed(RecipientNotFound);
      }
      records := records + [Transaction(nextId, me, payer, amount, true, now)];
      nextId := nextId + 1;
      outcome := Done;
    }

    method AcceptRequest(id: int, now: Time) returns (outcome: Outcome)
      requires Valid()
      modifies this
      ensures Valid()
      ensures Step(outcome, Snapshot()) == Accept(old(Snapshot()), convert, id, now)
    {
      var found := IndexOf(records, id);
      if found.None? {
        return Failed(NotFound);
      }
      var k := found.value;
      var t := records[k];
      var sender := accounts[t.sender];
      var receiver := accounts[t.receiver];
      var converted := convert(sender.currency, receiver.currency, t.amount);
      if receiver.balance < converted {
        hint := id;
        return Failed(InsufficientBalance);
      }
      receiver := receiver.(balance := receiver.balance - converted);
      sender := sender.(balance := sender.balance + t.amount);
      accounts := accounts[t.sender := sender];
      accounts := accounts[t.receiver := receiver];
      records := records[k := t.(request := false, modified := now)];
      outcome := Done;
    }

    method DeleteRequest(id: int, now: Time) returns (outcome: Outcome)
      requires Valid()
      modifies this
      ensures Valid()
      ensures Step(outcome, Snapshot()) == Delete(old(Snapshot()), id, now)
    {
      var found := IndexOf(records, id);
      if found.None? {
        return Failed(NotFound);
      }
      var k := found.value;
      records := records[k := records[k].(request := false, modified := now)];
      outcome := Done;
    }
  }
}
