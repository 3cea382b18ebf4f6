/** Properties of the payment engine that relate several operations, or an
    operation and the listings. */
module PaymentFacts {
  import opened Currencies
  import opened Records
  import opened Payments

  /** Keys are unique, so a record found by key is the only one with it. */
  lemma KeyIsUnique(st: State, id: int, k: nat)
    requires Consistent(st)
    requires k < |st.records| && st.records[k].id == id
    ensures IndexOf(st.records, id) == Some(k)
    ensures forall i :: 0 <= i < |st.records| && i != k ==> st.records[i].id != id
  {
  }

  /** Each operation keeps the database's guarantees. */
  lemma SendKeepsConsistent(st: State, convert: Converter, me: AccountId, to: AccountId, amount: Money, now: Time)
    requires Consistent(st) && me in st.accounts
    ensures Consistent(Send(st, convert, me, to, amount, now).post)
  {
  }

  lemma RequestKeepsConsistent(st: State, me: AccountId, payer: AccountId, amount: Money, now: Time)
    requires Consistent(st) && me in st.accounts
    ensures Consistent(Request(st, me, payer, amount, now).post)
  {
  }

  lemma AcceptKeepsConsistent(st: State, convert: Converter, id: int, now: Time)
    requires Consistent(st)
    ensures Consistent(Accept(st, convert, id, now).post)
  {
  }

  lemma DeleteKeepsConsistent(st: State, id: int, now: Time)
    requires Consistent(st)
    ensures Consistent(Delete(st, id, now).post)
  {
  }

  /** All balances and all stored amounts are non-negative. */
  ghost predicate NonNegative(st: State)
  {
    (forall a :: a in st.accounts ==> st.accounts[a].balance >= 0) &&
    (forall i :: 0 <= i < |st.records| ==> st.records[i].amount >= 0)
  }

  /** The exchange function turns a non-negative amount into a non-negative one. */
  ghost predicate KeepsSign(convert: Converter)
  {
    forall c, d, x :: x >= 0 ==> convert(c, d, x) >= 0
  }

  /** No operation drives a balance below zero, as long as amounts are
      non-negative and conversion does not turn them negative. The two
      balance checks alone guarantee it for the debited side. */
  lemma OperationsKeepNonNegative(st: State, convert: Converter, me: AccountId,
                                  other: AccountId, amount: Money, id: int, now: Time)
    requires Consistent(st) && NonNegative(st) && me in st.accounts
    requires amount >= 0 && KeepsSign(convert)
    ensures NonNegative(Send(st, convert, me, other, amount, now).post)
    ensures NonNegative(Request(st, me, other, amount, now).post)
    ensures NonNegative(Accept(st, convert, id, now).post)
    ensures NonNegative(Delete(st, id, now).post)
  {
    var r := Accept(st, convert, id, now);
    if r.outcome.Done? {
      var k := IndexOf(st.records, id).value;
      var t := st.records[k];
      assert t.amount >= 0;
      forall a | a in r.post.accounts ensures r.post.accounts[a].balance >= 0 {
        if a != t.sender && a != t.receiver {
          assert r.post.accounts[a] == st.accounts[a];
        }
      }
    }
  }

  /** Only the account keys and the amount, currencies and parties of the
      record decide what accepting it does: neither its request flag nor its
      stamp is read. */
  lemma AcceptIgnoresFlag(st: State, st': State, convert: Converter, id: int, now: Time)
    requires Consistent(st) && Consistent(st')
    requires st'.accounts == st.accounts && st'.hint == st.hint
    requires |st'.records| == |st.records|
    requires forall i :: 0 <= i < |st.records| ==>
               st'.records[i] == st.records[i].(request := st'.records[i].request,
                                                modified := st'.records[i].modified)
    ensures Accept(st', convert, id, now).outcome == Accept(st, convert, id, now).outcome
    ensures Accept(st', convert, id, now).post.accounts == Accept(st, convert, id, now).post.accounts
    ensures Accept(st', convert, id, now).post.hint == Accept(st, convert, id, now).post.hint
  {
  }

  /** Accepting a request that has already been accepted moves money again:
      the payer is debited a second time whenever the balance still covers it. */
  lemma AcceptTwicePaysTwice(st: State, convert: Converter, id: int, now1: Time, now2: Time)
    requires Consistent(st)
    requires Accept(st, convert, id, now1).outcome.Done?
    ensures
      var once := Accept(st, convert, id, now1).post;
      var k := IndexOf(st.records, id).value;
      var t := st.records[k];
      var converted := convert(st.accounts[t.sender].currency, st.accounts[t.receiver].currency, t.amount);
      var twice := Accept(once, convert, id, now2);
      Consistent(once) && !once.records[k].request &&
      (twice.outcome.Done? <==> once.accounts[t.receiver].balance >= converted) &&
      (twice.outcome.Done? ==>
         twice.post.accounts[t.receiver].balance == st.accounts[t.receiver].balance - 2 * converted)
  {
  }

  /** Withdrawing a request does not stop it from being accepted afterwards:
      accepting the withdrawn record moves exactly the money that accepting
      the pending one would have. */
  lemma DeleteThenAcceptStillPays(st: State, convert: Converter, id: int, now1: Time, now2: Time)
    requires Consistent(st)
    ensures
      var withdrawn := Delete(st, id, now1).post;
      Consistent(withdrawn) &&
      Accept(withdrawn, convert, id, now2).outcome == Accept(st, convert, id, now2).outcome &&
      Accept(withdrawn, convert, id, now2).post.accounts == Accept(st, convert, id, now2).post.accounts
  {
    var withdrawn := Delete(st, id, now1).post;
    if k :| 0 <= k < |st.records| && st.records[k].id == id {
      KeyIsUnique(st, id, k);
    }
    AcceptIgnoresFlag(st, withdrawn, convert, id, now2);
  }

  /** A send to one's own account keeps only the credit: the debit is saved
      first and then overwritten by the recipient's copy. */
  lemma SendToSelf(st: State, convert: Converter, me: AccountId, amount: Money, now: Time)
    requires me in st.accounts && amount <= st.accounts[me].balance
    ensures
      var c := st.accounts[me].currency;
      var r := Send(st, convert, me, me, amount, now);
      r.outcome.Done? && r.post.accounts[me].balance == st.accounts[me].balance + convert(c, c, amount)
  {
  }

  /** Accepting a request one made of oneself keeps only the debit. */
  lemma AcceptOwnRequest(st: State, convert: Converter, id: int, now: Time)
    requires Consistent(st)
    requires Accept(st, convert, id, now).outcome.Done?
    ensures
      var t := st.records[IndexOf(st.records, id).value];
      var c := st.accounts[t.sender].currency;
      t.sender == t.receiver ==>
        Accept(st, convert, id, now).post.accounts[t.sender].balance ==
        st.accounts[t.sender].balance - convert(c, c, t.amount)
  {
  }

  /** Between two distinct accounts of the same currency, and with conversion
      the identity on that currency, a send neither creates nor destroys money. */
  lemma SendConservesSameCurrency(st: State, convert: Converter, me: AccountId, to: AccountId, amount: Money, now: Time)
    requires me in st.accounts && to in st.accounts && me != to
    requires st.accounts[me].currency == st.accounts[to].currency
    requires convert(st.accounts[me].currency, st.accounts[me].currency, amount) == amount
    ensures
      var post := Send(st, convert, me, to, amount, now).post;
      post.accounts[me].balance + post.accounts[to].balance ==
      st.accounts[me].balance + st.accounts[to].balance
  {
  }

  /** The same for accepting a request between two distinct accounts. */
  lemma AcceptConservesSameCurrency(st: State, convert: Converter, id: int, now: Time)
    requires Consistent(st)
    requires IndexOf(st.records, id).Some?
    requires
      var t := st.records[IndexOf(st.records, id).value];
      var c := st.accounts[t.sender].currency;
      t.sender != t.receiver && st.accounts[t.receiver].currency == c && convert(c, c, t.amount) == t.amount
    ensures
      var t := st.records[IndexOf(st.records, id).value];
      var post := Accept(st, convert, id, now).post;
      post.accounts[t.sender].balance + post.accounts[t.receiver].balance ==
      st.accounts[t.sender].balance + st.accounts[t.receiver].balance
  {
  }

  /** A completed send shows up at once in both parties' histories and in the
      administrators' listing, and in nobody's requests. */
  lemma SendIsListed(st: State, convert: Converter, me: AccountId, to: AccountId, amount: Money, now: Time)
    requires me in st.accounts
    requires Send(st, convert, me, to, amount, now).outcome.Done?
    ensures
      var rs := Send(st, convert, me, to, amount, now).post.records;
      var t := Transaction(st.nextId, me, to, amount, false, now);
      t in History(rs, me) && t in History(rs, to) && t in AllTransactions(rs) &&
      t !in SentRequests(rs, me) && t !in ReceivedRequests(rs, to)
  {
  }

  /** A new request is pending for both parties and in nobody's history. */
  lemma RequestIsListed(st: State, me: AccountId, payer: AccountId, amount: Money, now: Time)
    requires Request(st, me, payer, amount, now).outcome.Done?
    ensures
      var rs := Request(st, me, payer, amount, now).post.records;
      var t := Transaction(st.nextId, me, payer, amount, true, now);
      t in SentRequests(rs, me) && t in ReceivedRequests(rs, payer) &&
      t !in History(rs, me) && t !in History(rs, payer) && t !in AllTransactions(rs)
  {
  }

  /** Once a request is accepted or withdrawn, no pending list of any account
      holds a record with its key, and the updated record is in both parties'
      histories (a withdrawn request is listed there like a completed one). */
  lemma ResolvedRequestLeavesPending(st: State, step: Step, convert: Converter, id: int, now: Time, acct: AccountId)
    requires Consistent(st)
    requires step == Accept(st, convert, id, now) || step == Delete(st, id, now)
    requires step.outcome.Done?
    ensures forall t :: t in SentRequests(step.post.records, acct) ==> t.id != id
    ensures forall t :: t in ReceivedRequests(step.post.records, acct) ==> t.id != id
    ensures
      var k := IndexOf(st.records, id).value;
      var t := step.post.records[k];
      t in History(step.post.records, t.sender) && t in History(step.post.records, t.receiver) &&
      t in AllTransactions(step.post.records)
  {
    var k := IndexOf(st.records, id).value;
    KeyIsUnique(st, id, k);
    var rs := step.post.records;
    assert rs == st.records[k := st.records[k].(request := false, modified := now)];
    forall t | t in rs && t.request ensures t.id != id {
      var j :| 0 <= j < |rs| && rs[j] == t;
      assert j != k;
    }
  }

  /** `n` sends of the same amount between two distinct accounts, one after
      another: how many succeed, and the state afterwards. */
  ghost function SendRepeatedly(st: State, convert: Converter, me: AccountId, to: AccountId,
                                amount: Money, now: Time, n: nat): (nat, State)
    requires me in st.accounts
    ensures me in SendRepeatedly(st, convert, me, to, amount, now, n).1.accounts
    decreases n
  {
    if n == 0 then (0, st)
    else
      var r := Send(st, convert, me, to, amount, now);
      var rest := SendRepeatedly(r.post, convert, me, to, amount, now, n - 1);
      (if r.outcome.Done? then rest.0 + 1 else rest.0, rest.1)
  }

  /** Sends that each check the balance before debiting cannot overdraw:
      of `n` sends of a positive amount, those that succeed are exactly as many
      as the balance covers, and the sender ends with less than one more amount. */
  lemma {:induction false} RepeatedSendsStopAtBalance(st: State, convert: Converter, me: AccountId, to: AccountId,
                                                      amount: Money, now: Time, n: nat)
    requires me in st.accounts && to in st.accounts && me != to
    requires amount > 0 && st.accounts[me].balance >= 0
    ensures
      var (ok, post) := SendRepeatedly(st, convert, me, to, amount, now, n);
      ok <= n &&
      post.accounts[me].balance == st.accounts[me].balance - ok * amount &&
      post.accounts[me].balance >= 0 &&
      (ok < n ==> post.accounts[me].balance < amount)
    decreases n
  {
    if n > 0 {
      var r := Send(st, convert, me, to, amount, now);
      RepeatedSendsStopAtBalance(r.post, convert, me, to, amount, now, n - 1);
      if r.outcome.Done? {
        var rest := SendRepeatedly(r.post, convert, me, to, amount, now, n - 1);
        assert (rest.0 + 1) * amount == rest.0 * amount + amount;
      }
    }
  }

  /** A worked send: 100.00 USD sent 40.00 to an empty USD account
      leaves 60.00 and 40.00 and one completed record of 40.00. */
  lemma SendScenario(convert: Converter, s: AccountId, r: AccountId, now: Time)
    requires s != r
    requires convert(USD, USD, 4000) == 4000
    ensures
      var st := State(map[s := Account(USD, 10000), r := Account(USD, 0)], [], 1, NoHint);
      var step := Send(st, convert, s, r, 4000, now);
      step.outcome == Done &&
      step.post.accounts[s].balance == 6000 && step.post.accounts[r].balance == 4000 &&
      step.post.records == [Transaction(1, s, r, 4000, false, now)]
  {
  }

  /** A worked request: R requests 25.00 from S, S accepts; S loses
      25.00, R gains 25.00, and the record is no longer a request. */
  lemma RequestAcceptScenario(convert: Converter, s: AccountId, r: AccountId, now1: Time, now2: Time)
    requires s != r
    requires convert(USD, USD, 2500) == 2500
    ensures
      var st := State(map[s := Account(USD, 10000), r := Account(USD, 0)], [], 1, NoHint);
      var asked := Request(st, r, s, 2500, now1);
      var paid := Accept(asked.post, convert, 1, now2);
      asked.outcome == Done && paid.outcome == Done &&
      paid.post.accounts[s].balance == 7500 && paid.post.accounts[r].balance == 2500 &&
      paid.post.records == [Transaction(1, r, s, 2500, false, now2)]
  {
  }
}
