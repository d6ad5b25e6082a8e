/**
 * The transaction ledger (src/backend/controllers/paymentController.js): a
 * module-level list that `processPayment` appends to and trims to its newest
 * 1000 entries, and `getTransactionHistory`, which filters it and reports the
 * count and total amount of what it returns.
 */
module PaymentController {
  import opened Js
  import opened Wrappers
  import Retention

  const MaxTransactions: nat := 1000
  const StatusCompleted := "completed"
  const InvalidPaymentData := "Invalid payment data"

  /**
   * The fields of `paymentData` the controller reads. An absent amount is
   * `None`; currency and metadata are arbitrary JavaScript values.
   */
  datatype PaymentData = PaymentData(amount: Option<int>, currency: Value, metadata: Value)

  /**
   * A stored transaction. The timestamp is the ISO string of the creation
   * time, kept as the millisecond count it denotes.
   */
  datatype Transaction = Transaction(
    id: string, amount: int, currency: Value, status: string, timestamp: int, metadata: Value)

  /** `!paymentData.amount || !paymentData.currency` fails: both fields are truthy. */
  predicate IsValidPayment(data: PaymentData) {
    data.amount.Some? && data.amount.value != 0 && Truthy(data.currency)
  }

  /** The number a string of decimal digits denotes, most significant digit first. */
  function DigitsValue(s: string): int {
    if s == [] then 0 else 10 * DigitsValue(s[..|s| - 1]) + (s[|s| - 1] as int - '0' as int)
  }

  /**
   * The decimal digits of a natural number, as a template literal prints them:
   * digits only, no leading zero, and denoting `n`.
   */
  function DecimalString(n: nat): (s: string)
    ensures |s| >= 1
    ensures forall i :: 0 <= i < |s| ==> '0' <= s[i] <= '9'
    ensures n >= 1 ==> s[0] != '0'
    ensures DigitsValue(s) == n
  {
    var digit := ['0' + (n % 10) as char];
    if n < 10 then digit
    else
      var prefix := DecimalString(n / 10);
      assert (prefix + digit)[..|prefix + digit| - 1] == prefix;
      prefix + digit
  }

  /** `txn_${Date.now()}`. */
  function TransactionId(now: nat): string {
    "txn_" + DecimalString(now)
  }

  /** `paymentData.metadata || {}`. */
  function MetadataOrEmpty(metadata: Value): (m: Value)
    ensures Truthy(m)
    ensures Truthy(metadata) ==> m == metadata
    ensures !Truthy(metadata) ==> m == Obj(map[])
  {
    if Truthy(metadata) then metadata else Obj(map[])
  }

  /**
   * A date given as a query filter: absent (undefined or the empty string,
   * both falsy, so the filter is skipped), a string `new Date` cannot parse
   * (an Invalid Date, against which every comparison is false), or a time in
   * milliseconds.
   */
  datatype DateParam = Absent | Unparsable | At(time: int)

  /** `filters`, as the history route fills it from the query string. */
  datatype Filters = Filters(startDate: DateParam, endDate: DateParam, status: Option<string>)

  const NoFilters := Filters(Absent, Absent, None)

  /** `new Date(t.timestamp) >= new Date(filters.startDate)`, for a start date that is given. */
  predicate OnOrAfter(t: Transaction, start: DateParam) {
    match start
    case Absent => true
    case Unparsable => false
    case At(time) => t.timestamp >= time
  }

  /** `new Date(t.timestamp) <= new Date(filters.endDate)`, for an end date that is given. */
  predicate OnOrBefore(t: Transaction, end: DateParam) {
    match end
    case Absent => true
    case Unparsable => false
    case At(time) => t.timestamp <= time
  }

  /** `t.status === filters.status`, for a status that is given. */
  predicate HasStatus(t: Transaction, status: Option<string>) {
    status.Some? && t.status == status.value
  }

  /** `if (filters.status)`: the status filter applies only to a non-empty string. */
  predicate HasStatusFilter(filters: Filters) {
    filters.status.Some? && filters.status.value != ""
  }

  function StartTest(filters: Filters): Transaction -> bool {
    t => OnOrAfter(t, filters.startDate)
  }

  function EndTest(filters: Filters): Transaction -> bool {
    t => OnOrBefore(t, filters.endDate)
  }

  function StatusTest(filters: Filters): Transaction -> bool {
    t => HasStatus(t, filters.status)
  }

  /** Whether a transaction passes every filter that applies. */
  predicate Matches(filters: Filters, t: Transaction) {
    && OnOrAfter(t, filters.startDate)
    && OnOrBefore(t, filters.endDate)
    && (!HasStatusFilter(filters) || HasStatus(t, filters.status))
  }

  function MatchTest(filters: Filters): Transaction -> bool {
    t => Matches(filters, t)
  }

  function MissTest(filters: Filters): Transaction -> bool {
    t => !Matches(filters, t)
  }

  /**
   * The three successive `filter` calls of `getTransactionHistory`, each made
   * only when its filter is truthy: one filter on `Matches`, so exactly the
   * matching transactions, each as often as in the store, in store order.
   */
  function ApplyFilters(ts: seq<Transaction>, filters: Filters): (r: seq<Transaction>)
    ensures r == Filter(ts, MatchTest(filters))
    ensures IsSubsequence(r, ts)
    ensures forall i :: 0 <= i < |r| ==> Matches(filters, r[i])
    ensures forall t :: t in ts && Matches(filters, t) ==> t in r
    ensures filters == NoFilters ==> r == ts
  {
    var afterStart := if filters.startDate.Absent? then ts else Filter(ts, StartTest(filters));
    var beforeEnd := if filters.endDate.Absent? then afterStart else Filter(afterStart, EndTest(filters));
    var withStatus := if !HasStatusFilter(filters) then beforeEnd else Filter(beforeEnd, StatusTest(filters));
    FilterStepsCompose(ts, filters, afterStart, beforeEnd, withStatus);
    withStatus
  }

  /** The three filter steps together are one filter on `Matches`. */
  lemma FilterStepsCompose(ts: seq<Transaction>, filters: Filters,
                           afterStart: seq<Transaction>, beforeEnd: seq<Transaction>, withStatus: seq<Transaction>)
    requires afterStart == if filters.startDate.Absent? then ts else Filter(ts, StartTest(filters))
    requires beforeEnd == if filters.endDate.Absent? then afterStart else Filter(afterStart, EndTest(filters))
    requires withStatus == if !HasStatusFilter(filters) then beforeEnd else Filter(beforeEnd, StatusTest(filters))
    ensures withStatus == Filter(ts, MatchTest(filters))
    ensures IsSubsequence(withStatus, ts)
    ensures forall t :: t in ts && Matches(filters, t) ==> t in withStatus
    ensures forall t :: Matches(filters, t) ==> multiset(withStatus)[t] == multiset(ts)[t]
  {
    // A skipped step is a filter that keeps everything.
    var statusGate: Transaction -> bool := t => !HasStatusFilter(filters) || HasStatus(t, filters.status);
    if filters.startDate.Absent? {
      FilterOfMatchesIsIdentity(ts, StartTest(filters));
    }
    if filters.endDate.Absent? {
      FilterOfMatchesIsIdentity(afterStart, EndTest(filters));
    }
    if HasStatusFilter(filters) {
      FilterCongruent(beforeEnd, StatusTest(filters), statusGate);
    } else {
      FilterOfMatchesIsIdentity(beforeEnd, statusGate);
    }
    var inRange: Transaction -> bool := t => OnOrAfter(t, filters.startDate) && OnOrBefore(t, filters.endDate);
    FilterFilter(ts, StartTest(filters), EndTest(filters), inRange);
    FilterFilter(ts, inRange, statusGate, MatchTest(filters));
    FilterIsSubsequence(ts, MatchTest(filters));
    FilterCounts(ts, MatchTest(filters));
    forall t | t in ts && Matches(filters, t) ensures t in withStatus {
      FilterKeepsMatches(ts, MatchTest(filters), t);
    }
  }

  /** `filteredTransactions.reduce((sum, t) => sum + t.amount, 0)`. */
  function Volume(ts: seq<Transaction>): int {
    if ts == [] then 0 else ts[0].amount + Volume(ts[1..])
  }

  /** The volume of a list is the volume of what a filter keeps plus the volume of what it drops. */
  lemma {:induction false} VolumePartition(ts: seq<Transaction>, keep: Transaction -> bool, drop: Transaction -> bool)
    requires forall t :: drop(t) == !keep(t)
    ensures Volume(Filter(ts, keep)) + Volume(Filter(ts, drop)) == Volume(ts)
  {
    if ts != [] {
      VolumePartition(ts[1..], keep, drop);
    }
  }

  /**
   * The volume `getTransactionHistory` reports for a filter, plus the volume of
   * the transactions the filter leaves out, is the volume of the whole ledger.
   */
  lemma {:induction false} FilteredVolumeSplit(ts: seq<Transaction>, filters: Filters)
    ensures Volume(ApplyFilters(ts, filters)) + Volume(Filter(ts, MissTest(filters))) == Volume(ts)
  {
    VolumePartition(ts, MatchTest(filters), MissTest(filters));
  }

  /** The result of `getTransactionHistory` without the floating-point `averageAmount`. */
  datatype History = History(transactions: seq<Transaction>, totalTransactions: nat, totalVolume: int)

  class TransactionStore {
    var transactions: seq<Transaction>

    /** The retention rule keeps the ledger at no more than 1000 transactions. */
    ghost predicate Valid()
      reads this
    {
      |transactions| <= MaxTransactions
    }

    /** The store as the module starts it: `let transactions = []`. */
    constructor ()
      ensures transactions == [] && Valid()
    {
      transactions := [];
    }

    /**
     * `processPayment(paymentData)`. The clock readings are parameters: `now`
     * is `Date.now()`, used for the id, and `timestamp` the creation time.
     */
    method ProcessPayment(data: PaymentData, now: nat, timestamp: int) returns (r: Result<Transaction, string>)
      modifies this
      ensures !IsValidPayment(data) ==> r == Err(InvalidPaymentData) && transactions == old(transactions)
      ensures IsValidPayment(data) ==> r.Ok?
      ensures r.Ok? ==>
        && r.value.id == TransactionId(now)
        && r.value.amount == data.amount.value
        && r.value.currency == data.currency
        && r.value.status == StatusCompleted
        && r.value.timestamp == timestamp
        && r.value.metadata == MetadataOrEmpty(data.metadata)
      ensures r.Ok? ==> transactions == Retention.Trim(old(transactions) + [r.value], MaxTransactions)
      ensures r.Ok? ==> |transactions| >= 1 && transactions[|transactions| - 1] == r.value
      ensures r.Ok? && |old(transactions)| < MaxTransactions ==> transactions == old(transactions) + [r.value]
      ensures r.Ok? ==> Valid()
      ensures old(Valid()) ==> Valid()
    {
      if data.amount.None? || data.amount.value == 0 || !Truthy(data.currency) {
        return Err(InvalidPaymentData);
      }
      var transaction := Transaction(TransactionId(now), data.amount.value, data.currency,
                                     StatusCompleted, timestamp, MetadataOrEmpty(data.metadata));
      transactions := transactions + [transaction];
      if |transactions| > MaxTransactions {
        transactions := SliceFrom(transactions, -(MaxTransactions as int));
      }
      Retention.TrimKeepsNewestBatch(old(transactions), [transaction], MaxTransactions);
      return Ok(transaction);
    }

    /**
     * `getTransactionHistory(filters)`: the transactions that pass every
     * filter given, in store order, with their count and total amount.
     */
    function GetTransactionHistory(filters: Filters): (r: History)
      reads this
      ensures r.transactions == Filter(transactions, MatchTest(filters))
      ensures IsSubsequence(r.transactions, transactions)
      ensures forall i :: 0 <= i < |r.transactions| ==> Matches(filters, r.transactions[i])
      ensures forall t :: t in transactions && Matches(filters, t) ==> t in r.transactions
      ensures filters == NoFilters ==> r.transactions == transactions && r.totalVolume == Volume(transactions)
      ensures r.totalTransactions == |r.transactions|
      ensures r.totalVolume == Volume(r.transactions)
    {
      var selected := ApplyFilters(transactions, filters);
      History(selected, |selected|, Volume(selected))
    }
  }
}
