# payapp ledger, modelled in Dafny

This project models the peer-to-peer payment ledger inside the views of
`payapp/views.py`. Users hold single-currency accounts (USD, EUR or GBP).
They send money to each other, request money from each other, and accept or
withdraw requests. Every send and request leaves a `Transaction` record.
The model drops the HTTP, template and ORM wrapping. What remains is a state
machine over:

- the accounts, each with a currency and a balance in minor units (cents);
- the record store, with key `id`, `sender`, `receiver`, `amount`, the
  `request` flag and the `modified` stamp;
- the session's insufficient-balance hint, `-1` until an accept fails.

Files and modules:

- `currency.dfy`, module `Currencies`: the currencies, the balance sign of
  the home page, and the type of the exchange function. `convert_currency`
  is a value of type `Converter`. Nothing is assumed about its results, except
  where a lemma states an assumption as a hypothesis.
- `records.dfy`, module `Records`: the record type, lookup by primary key,
  and the four listings (`filter(...).order_by('-modified')`).
- `ledger.dfy`, module `Payments`: the state, and one specification function
  per view that changes state (`Send`, `Request`, `Accept`, `Delete`). The
  class `Bank` holds the same state in fields. Its methods load the accounts,
  change the copies and save them in the order the views use. Each method is
  proved equal to its specification function.
- `facts.dfy`, module `PaymentFacts`: properties that span several operations,
  or an operation and the listings.

Behaviour the model keeps because the code has it:

- `accept_request` never reads the `request` flag. Accepting twice moves money
  twice (`AcceptTwicePaysTwice`). A withdrawn request can still be accepted
  (`DeleteThenAcceptStillPays`). A second accept is not a no-op: it debits the
  payer again.
- The sender's and receiver's accounts are loaded as two separate objects and
  saved one after the other, so the last save wins. A send to one's own account
  keeps only the credit (`SendToSelf`). Accepting a request made of oneself
  keeps only the debit (`AcceptOwnRequest`).
- `accept_request` and `delete_request` check neither who is calling nor the
  record's state.
- A withdrawn request has its flag cleared like an accepted one, so it is
  listed in both parties' histories (`ResolvedRequestLeavesPending`).
- The hint is set when an accept fails for lack of funds and is never cleared.

## Model

| member | source | states |
|---|---|---|
| `Currencies.Sign` | payapp/views.py:17-22 | USD shows `$`, EUR shows `€`, any other currency shows `£` (both directions) |
| `Records.IndexOf` | payapp/views.py:104 | finds the first record with the key; None exactly when no record has it |
| `Records.SortByRecency` | payapp/views.py:81 | `order_by('-modified')`: the result is newest first and a permutation of the input |
| `Records.Listing` | payapp/views.py:81-83 | a query holds exactly the stored records that pass the filter, with their multiplicities, newest first |
| `Records.SentRequests` | payapp/views.py:81 | exactly the records with `sender == acct` and `request` set, newest first |
| `Records.ReceivedRequests` | payapp/views.py:82-83 | exactly the records with `receiver == acct` and `request` set, newest first |
| `Records.History` | payapp/views.py:122-125 | exactly the records with `acct` as sender or receiver and `request` clear, newest first |
| `Records.AllTransactions` | payapp/views.py:139 | exactly the records with `request` clear, newest first |
| `Records.ListingsPartition` | payapp/views.py:81-125 | a record of the account is either pending (in sent or received, not in history) or settled (in history and the admin list, in no request list) |
| `Payments.Send` | payapp/views.py:36-46 | fails with InsufficientBalance iff balance < amount, then RecipientNotFound iff the recipient is missing, in both cases changing nothing; succeeds iff the balance covers the amount and the recipient exists. On success: the recipient gains exactly `convert(sender currency, recipient currency, amount)`, the sender (if distinct) loses exactly `amount` and stays non-negative, no other account changes, and exactly one completed record holding the sender-currency amount is appended |
| `Payments.Request` | payapp/views.py:63-68 | succeeds iff the payer exists (otherwise RecipientNotFound, nothing changed); on success appends one record with `request` set, `sender` the requester and `receiver` the payer; balances and hint unchanged |
| `Payments.Accept` | payapp/views.py:104-115 | NotFound iff no record has the key, and nothing changes. If the payer's balance is below the converted amount, only the hint changes (to the id). Otherwise the payer loses exactly the converted amount and stays non-negative, the requester (if distinct) gains the unconverted amount, the flag is cleared and the record's `modified` stamp set to the current time, and nothing else changes |
| `Payments.Delete` | payapp/views.py:93-95 | NotFound iff no record has the key. Otherwise clears the flag and sets the `modified` stamp to the current time, on that record only; balances and hint unchanged |
| `Payments.Requests` | payapp/views.py:81-86 | the requests page: exactly the pending requests the account sent and received, each as often as stored, newest first, and the hint |
| `Payments.Bank.constructor` | payapp/views.py:86 | a fresh ledger has no records and hint `-1` |
| `Payments.Bank.SendPayment` | payapp/views.py:35-46 | loads, changes and saves sender then receiver; outcome and new state equal `Send`; database guarantees kept |
| `Payments.Bank.RequestPayment` | payapp/views.py:63-68 | outcome and new state equal `Request`; database guarantees kept |
| `Payments.Bank.AcceptRequest` | payapp/views.py:103-115 | loads the record and both accounts, sets the hint or saves requester then payer then the record; outcome and new state equal `Accept` |
| `Payments.Bank.DeleteRequest` | payapp/views.py:93-95 | outcome and new state equal `Delete` |
| `PaymentFacts.KeyIsUnique` | payapp/views.py:104 | with unique keys, lookup by key finds the one record that has it |
| `PaymentFacts.SendKeepsConsistent` | payapp/views.py:44-46 | a send keeps every record's parties existing and keys increasing |
| `PaymentFacts.RequestKeepsConsistent` | payapp/views.py:63-68 | the same for a request |
| `PaymentFacts.AcceptKeepsConsistent` | payapp/views.py:110-115 | the same for an accept |
| `PaymentFacts.DeleteKeepsConsistent` | payapp/views.py:93-95 | the same for a delete |
| `PaymentFacts.OperationsKeepNonNegative` | payapp/views.py:36-115 | with non-negative amounts and a sign-preserving conversion, no operation makes a balance negative |
| `PaymentFacts.AcceptIgnoresFlag` | payapp/views.py:104-112 | what an accept does depends on neither the record's request flag nor its stamp |
| `PaymentFacts.AcceptTwicePaysTwice` | payapp/views.py:104-115 | after a successful accept, a second accept of the same id succeeds iff the payer still covers the amount, and then debits the payer a second time |
| `PaymentFacts.DeleteThenAcceptStillPays` | payapp/views.py:93-115 | accepting a withdrawn request has the same outcome and balance effect as accepting it while pending |
| `PaymentFacts.SendToSelf` | payapp/views.py:39-43 | a send to oneself leaves balance + converted amount: the debit is overwritten |
| `PaymentFacts.AcceptOwnRequest` | payapp/views.py:110-114 | accepting a request made of oneself leaves balance - converted amount: the credit is overwritten |
| `PaymentFacts.SendConservesSameCurrency` | payapp/views.py:40-41 | between two distinct same-currency accounts with identity conversion, a send conserves their total |
| `PaymentFacts.AcceptConservesSameCurrency` | payapp/views.py:110-111 | the same for an accept |
| `PaymentFacts.SendIsListed` | payapp/views.py:44-46 | the new completed record is in both parties' histories and the admin list, and in no request list |
| `PaymentFacts.RequestIsListed` | payapp/views.py:63-68 | the new request is in the requester's sent and the payer's received requests, and in no history |
| `PaymentFacts.ResolvedRequestLeavesPending` | payapp/views.py:92-115 | after an accept or a delete, no pending list holds a record with that key, and the record is in both parties' histories |
| `PaymentFacts.RepeatedSendsStopAtBalance` | payapp/views.py:36-40 | of n sends of a positive amount, the successes are exactly the number the balance covers, and the sender never goes negative |
| `PaymentFacts.SendScenario` | payapp/views.py:36-46 | 100.00 USD minus a send of 40.00 leaves 60.00 and 40.00 and one completed record |
| `PaymentFacts.RequestAcceptScenario` | payapp/views.py:59-115 | a request of 25.00, once accepted, moves 25.00 and clears the flag |

## Left out

- Authentication and staff checks (`login_required`, `user_passes_test`) are access control in front of the ledger. They are not modelled.
- `transaction.atomic` and concurrency: each operation is one sequential step. A failure changes nothing, which is what rollback gives. `RepeatedSendsStopAtBalance` covers concurrent sends serialised one after another.
- Template rendering, redirects and `PaymentForm` validation are not modelled. `payapp/forms.py` is not part of this model. The form's amount arrives as an integer number of cents with no sign constraint, and the recipient as an account key.
- Recipient lookup by e-mail (`User.objects.get(email__exact=...)`) is modelled as a lookup of the account key. In the source a missing recipient raises an unhandled `DoesNotExist`, and the atomic block rolls the view back. The model returns `Failed(RecipientNotFound)` with the state unchanged instead. Duplicate e-mails are not modelled.
- A missing key in `Transaction.objects.get(pk=...)` raises an exception in the source. The model returns `Failed(NotFound)` with the state unchanged, as the rollback leaves it. A `request_id` that is not a number is not modelled.
- `convert_currency` (in `payapp/models.py`, which is not part of this model) is an arbitrary function value. Its rates and rounding are not modelled.
- The balance formatting `"{:.2f}"` on the home page is display only and is not modelled.
- The `accounts` view is a plain read of the user table and is not modelled.
- The `modified` stamp is assumed to be set to the current time on every save. `payapp/models.py` is not part of this model. The clock is the `now` parameter.
- Records with equal `modified` stamps have no order guaranteed by the database. The model keeps their stored order.
- The hint is kept as a number throughout. In the session, a failed accept stores the request's key as the text read from the query string, and only the default is the number -1. A comparison of that text with a record's numeric key is not modelled.
- The hint lives in the HTTP session, one per user. The model keeps one hint field for the session that runs the operations.
- Payments.Send: the sender's non-negativity is stated only when sender and recipient differ. For a send to oneself the saved balance is the credited copy (`SendToSelf`), whose sign depends on the conversion.
