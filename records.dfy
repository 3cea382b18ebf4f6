/** The transaction record store: the stored records, lookup by primary key,
    and the filtered listings ordered newest first. */
module Records {
  import opened Currencies

  type AccountId = nat

  /** A point in time, as stored in a record's `modified` stamp. */
  type Time = int

  datatype Option<T> = None | Some(value: T)

  /** One stored record. `request` is true while the record is an outstanding
      request; a completed transfer, an accepted request and a withdrawn request
      all have it false. For a request, `sender` is the account that asked for
      the money and `receiver` the account asked to pay. */
  datatype Transaction = Transaction(
    id: int,
    sender: AccountId,
    receiver: AccountId,
    amount: Money,
    request: bool,
    modified: Time)

  /** Position of the record whose primary key is `id`; None when no record has it. */
  function IndexOf(rs: seq<Transaction>, id: int): (r: Option<nat>)
    ensures r.Some? ==> r.value < |rs| && rs[r.value].id == id
    ensures r.Some? ==> forall i :: 0 <= i < r.value ==> rs[i].id != id
    ensures r.None? <==> forall i :: 0 <= i < |rs| ==> rs[i].id != id
  {
    if rs == [] then None
    else if rs[0].id == id then Some(0)
    else match IndexOf(rs[1..], id)
      case None => None
      case Some(k) => Some(k + 1)
  }

  /** The records that satisfy `keep`, each as often as it is stored. */
  function Where(rs: seq<Transaction>, keep: Transaction -> bool): (r: seq<Transaction>)
    ensures forall t :: multiset(r)[t] == if keep(t) then multiset(rs)[t] else 0
  {
    if rs == [] then []
    else
      assert rs == [rs[0]] + rs[1..];
      (if keep(rs[0]) then [rs[0]] else []) + Where(rs[1..], keep)
  }

  /** The order of `order_by('-modified')`: the most recently modified first. */
  ghost predicate NewestFirst(rs: seq<Transaction>)
  {
    forall i, j :: 0 <= i < j < |rs| ==> rs[i].modified >= rs[j].modified
  }

  /** Places `t` in a list that is already newest first. */
  function Insert(t: Transaction, rs: seq<Transaction>): (r: seq<Transaction>)
    requires NewestFirst(rs)
    ensures NewestFirst(r)
    ensures multiset(r) == multiset(rs) + multiset{t}
    ensures |r| == |rs| + 1
    ensures r[0] == t || (rs != [] && r[0] == rs[0])
  {
    if rs == [] then [t]
    else if t.modified >= rs[0].modified then [t] + rs
    else
      assert rs == [rs[0]] + rs[1..];
      [rs[0]] + Insert(t, rs[1..])
  }

  /** The records of `rs` rearranged newest first. Records modified at the same
      time (for which the database promises no order) keep their stored order. */
  function SortByRecency(rs: seq<Transaction>): (r: seq<Transaction>)
    ensures NewestFirst(r)
    ensures multiset(r) == multiset(rs)
  {
    if rs == [] then []
    else
      assert rs == [rs[0]] + rs[1..];
      Insert(rs[0], SortByRecency(rs[1..]))
  }

  /** A query `filter(keep).order_by('-modified')` over the store. */
  function Listing(rs: seq<Transaction>, keep: Transaction -> bool): (r: seq<Transaction>)
    ensures forall t :: multiset(r)[t] == if keep(t) then multiset(rs)[t] else 0
    ensures forall t :: t in r <==> t in rs && keep(t)
    ensures NewestFirst(r)
  {
    SortByRecency(Where(rs, keep))
  }

  /** Requests the account has made and that are still outstanding. */
  function SentRequests(rs: seq<Transaction>, acct: AccountId): (r: seq<Transaction>)
    ensures forall t :: multiset(r)[t] == if t.sender == acct && t.request then multiset(rs)[t] else 0
    ensures forall t :: t in r <==> t in rs && t.sender == acct && t.request
    ensures NewestFirst(r)
  {
    Listing(rs, (t: Transaction) => t.sender == acct && t.request)
  }

  /** Requests addressed to the account that are still outstanding. */
  function ReceivedRequests(rs: seq<Transaction>, acct: AccountId): (r: seq<Transaction>)
    ensures forall t :: multiset(r)[t] == if t.receiver == acct && t.request then multiset(rs)[t] else 0
    ensures forall t :: t in r <==> t in rs && t.receiver == acct && t.request
    ensures NewestFirst(r)
  {
    Listing(rs, (t: Transaction) => t.receiver == acct && t.request)
  }

  /** Every record with the request flag cleared in which the account takes part. */
  function History(rs: seq<Transaction>, acct: AccountId): (r: seq<Transaction>)
    ensures forall t :: multiset(r)[t] == if (t.sender == acct || t.receiver == acct) && !t.request then multiset(rs)[t] else 0
    ensures forall t :: t in r <==> t in rs && (t.sender == acct || t.receiver == acct) && !t.request
    ensures NewestFirst(r)
  {
    Listing(rs, (t: Transaction) => (t.sender == acct || t.receiver == acct) && !t.request)
  }

  /** The administrators' listing: every record with the request flag cleared. */
  function AllTransactions(rs: seq<Transaction>): (r: seq<Transaction>)
    ensures forall t :: multiset(r)[t] == if !t.request then multiset(rs)[t] else 0
    ensures forall t :: t in r <==> t in rs && !t.request
    ensures NewestFirst(r)
  {
    Listing(rs, (t: Transaction) => !t.request)
  }

  /** A record that involves the account is, while pending, in the account's
      sent or received requests and not in its history, and once its flag is
      cleared, in its history and in neither request list. */
  lemma ListingsPartition(rs: seq<Transaction>, acct: AccountId, t: Transaction)
    requires t in rs
    requires t.sender == acct || t.receiver == acct
    ensures t.request ==>
              t !in History(rs, acct) && (t in SentRequests(rs, acct) || t in ReceivedRequests(rs, acct))
    ensures !t.request ==>
              t in History(rs, acct) && t in AllTransactions(rs) &&
              t !in SentRequests(rs, acct) && t !in ReceivedRequests(rs, acct)
  {
  }
}
