/**
 * The statistics aggregate and `processTransaction`
 * (server/CalculateStatistics.ts; inlined in server/server.ts): every decoded
 * transaction bumps the totals, one per-day bucket and the sender's and
 * receiver's entries.
 */
module Statistics {
  import opened FrameDecoder

  /** `stat.total`. */
  datatype Totals = Totals(amount: int, transactions: nat)

  /** One entry of `stat.customerStatistics`. */
  datatype CustomerStat = CustomerStat(transactions: nat, totalSent: int, totalReceived: int)

  /** One entry of `stat.dayStatistics`. */
  datatype DayStat = DayStat(transactions: nat)

  /** The whole aggregate `IStat`, as a value. */
  datatype Aggregate = Aggregate(
    total: Totals,
    customerStatistics: map<Name, CustomerStat>,
    dayStatistics: map<int, DayStat>)

  /** The aggregate a session starts from: zero totals, no customers, no days. */
  const Empty := Aggregate(Totals(0, 0), map[], map[])

  /** Milliseconds in a day. */
  const DayMs: int := 86_400_000

  /**
   * The day key of `time`: the instant of the local midnight that starts its day,
   * as `setHours(0)`, `setMinutes(0)`, `setSeconds(0)`, `setMilliseconds(0)` and
   * `getTime()` compute it, for a host whose local time is `zone` milliseconds
   * ahead of UTC.
   */
  function DayKey(time: int, zone: int): (key: int)
    ensures key <= time < key + DayMs
    ensures (key + zone) % DayMs == 0
  {
    time - (time + zone) % DayMs
  }

  /** The day bucket update: create the bucket with one transaction, or count one more. */
  function CountDay(days: map<int, DayStat>, key: int): (r: map<int, DayStat>)
  {
    if key !in days then days[key := DayStat(1)]
    else days[key := DayStat(days[key].transactions + 1)]
  }

  /** The customer upsert: create `{1, sent, received}`, or count one more transaction and add the amounts. */
  function Credit(customers: map<Name, CustomerStat>, name: Name, sent: int, received: int): (r: map<Name, CustomerStat>)
  {
    if name !in customers then customers[name := CustomerStat(1, sent, received)]
    else
      var c := customers[name];
      customers[name := CustomerStat(c.transactions + 1, c.totalSent + sent, c.totalReceived + received)]
  }

  /** The aggregate after `processTransaction(stat, tx)`. */
  function Apply(a: Aggregate, tx: Transaction, zone: int): Aggregate
  {
    Aggregate(
      Totals(a.total.amount + tx.amount, a.total.transactions + 1),
      Credit(Credit(a.customerStatistics, tx.sender, tx.amount, 0), tx.receiver, 0, tx.amount),
      CountDay(a.dayStatistics, DayKey(tx.time, zone)))
  }

  /** The aggregate after folding `txs` into `a`, first transaction first. */
  function FoldAll(a: Aggregate, txs: seq<Transaction>, zone: int): Aggregate
  {
    if txs == [] then a else Apply(FoldAll(a, txs[..|txs| - 1], zone), txs[|txs| - 1], zone)
  }

  /** The mutable aggregate `stat` of one request. */
  class Stat {
    var total: Totals
    var customerStatistics: map<Name, CustomerStat>
    var dayStatistics: map<int, DayStat>

    /** The aggregate value the fields hold now. */
    function Snapshot(): Aggregate
      reads this
    {
      Aggregate(total, customerStatistics, dayStatistics)
    }

    /** The literal `{dayStatistics: {}, customerStatistics: {}, total: {amount: 0, transactions: 0}}`. */
    constructor ()
      ensures Snapshot() == Empty
    {
      total := Totals(0, 0);
      customerStatistics := map[];
      dayStatistics := map[];
    }

    /** `processTransaction(stat, data)`: the updates in the order the code makes them. */
    method ProcessTransaction(data: Transaction, zone: int)
      modifies this
      ensures Snapshot() == Apply(old(Snapshot()), data, zone)
    {
      total := total.(transactions := total.transactions + 1);
      total := total.(amount := total.amount + data.amount);
      var day := DayKey(data.time, zone);
      if day !in dayStatistics {
        dayStatistics := dayStatistics[day := DayStat(1)];
      } else {
        dayStatistics := dayStatistics[day := DayStat(dayStatistics[day].transactions + 1)];
      }
      assert dayStatistics == CountDay(old(dayStatistics), day);
      ghost var customers := customerStatistics;
      if data.sender !in customerStatistics {
        customerStatistics := customerStatistics[data.sender := CustomerStat(1, data.amount, 0)];
      } else {
        var c := customerStatistics[data.sender];
        customerStatistics := customerStatistics[data.sender := c.(transactions := c.transactions + 1, totalSent := c.totalSent + data.amount)];
      }
      assert customerStatistics == Credit(customers, data.sender, data.amount, 0);
      customers := customerStatistics;
      if data.receiver !in customerStatistics {
        customerStatistics := customerStatistics[data.receiver := CustomerStat(1, 0, data.amount)];
      } else {
        var c := customerStatistics[data.receiver];
        customerStatistics := customerStatistics[data.receiver := c.(transactions := c.transactions + 1, totalReceived := c.totalReceived + data.amount)];
      }
      assert customerStatistics == Credit(customers, data.receiver, 0, data.amount);
    }
  }

  // ----- Properties of one fold step -----

  /** Two instants share a day key exactly when they fall in the same local day. */
  lemma SameDayIffSameKey(t1: int, t2: int, zone: int)
    ensures DayKey(t1, zone) == DayKey(t2, zone) <==> (t1 + zone) / DayMs == (t2 + zone) / DayMs
  {
    var k1, k2 := DayKey(t1, zone), DayKey(t2, zone);
    var q1, q2 := (t1 + zone) / DayMs, (t2 + zone) / DayMs;
    if q1 != q2 {
      if q1 < q2 {
        assert q1 * DayMs + DayMs <= q2 * DayMs;
      } else {
        assert q2 * DayMs + DayMs <= q1 * DayMs;
      }
    }
  }

  /** Any local midnight is its own day key, and the instant before it belongs to another day. */
  lemma MidnightStartsNewDay(midnight: int, zone: int)
    requires (midnight + zone) % DayMs == 0
    ensures DayKey(midnight, zone) == midnight
    ensures DayKey(midnight - 1, zone) == midnight - DayMs
  {
    var q := (midnight + zone) / DayMs;
    assert midnight + zone == q * DayMs;
    assert (midnight - 1 + zone) / DayMs == q - 1;
  }

  /**
   * Each fold touches exactly one day bucket, the one of the transaction's day:
   * it is created with count 1 when absent and otherwise counts one more; no other
   * bucket changes.
   */
  lemma ApplyDayBucket(a: Aggregate, tx: Transaction, zone: int)
    ensures var key, days := DayKey(tx.time, zone), Apply(a, tx, zone).dayStatistics;
      && days.Keys == a.dayStatistics.Keys + {key}
      && days[key].transactions == (if key in a.dayStatistics then a.dayStatistics[key].transactions + 1 else 1)
      && forall k :: k in a.dayStatistics && k != key ==> days[k] == a.dayStatistics[k]
  {
  }

  /**
   * Customer upsert: a new sender gets `{1, amount, 0}` and a new receiver
   * `{1, 0, amount}`; an existing one counts one more transaction and adds the
   * amount to its sent or received sum; when sender and receiver are the same,
   * that one entry counts two more transactions and both sums grow by the
   * amount; no other entry changes.
   */
  lemma ApplyCustomers(a: Aggregate, tx: Transaction, zone: int)
    ensures var before, after := a.customerStatistics, Apply(a, tx, zone).customerStatistics;
      && after.Keys == before.Keys + {tx.sender, tx.receiver}
      && (forall n :: n in before && n != tx.sender && n != tx.receiver ==> after[n] == before[n])
      && (tx.sender != tx.receiver ==>
            && after[tx.sender] == (if tx.sender in before
                 then before[tx.sender].(transactions := before[tx.sender].transactions + 1,
                                         totalSent := before[tx.sender].totalSent + tx.amount)
                 else CustomerStat(1, tx.amount, 0))
            && after[tx.receiver] == (if tx.receiver in before
                 then before[tx.receiver].(transactions := before[tx.receiver].transactions + 1,
                                           totalReceived := before[tx.receiver].totalReceived + tx.amount)
                 else CustomerStat(1, 0, tx.amount)))
      && (tx.sender == tx.receiver ==>
            after[tx.sender] == (if tx.sender in before
              then CustomerStat(before[tx.sender].transactions + 2,
                                before[tx.sender].totalSent + tx.amount,
                                before[tx.sender].totalReceived + tx.amount)
              else CustomerStat(2, tx.amount, tx.amount)))
  {
  }

  // ----- Sums over the maps -----

  /** The sum of `f` over the values of `m`. */
  ghost function Sum<K, V>(m: map<K, V>, f: V -> int): int
    decreases |m|
  {
    if m == map[] then 0
    else
      var k :| k in m;
      f(m[k]) + Sum(m - {k}, f)
  }

  /** Any one entry can be split off a sum. */
  lemma {:induction false} SumRemove<K, V>(m: map<K, V>, f: V -> int, k: K)
    requires k in m
    ensures Sum(m, f) == f(m[k]) + Sum(m - {k}, f)
    decreases |m|
  {
    var j :| j in m && Sum(m, f) == f(m[j]) + Sum(m - {j}, f);
    if j != k {
      SumRemove(m - {j}, f, k);
      SumRemove(m - {k}, f, j);
      assert m - {j} - {k} == m - {k} - {j};
    }
  }

  /** Writing one entry changes a sum by the difference of the new and the old value. */
  lemma SumUpdate<K, V>(m: map<K, V>, f: V -> int, k: K, v: V)
    ensures Sum(m[k := v], f) == Sum(m, f) - (if k in m then f(m[k]) else 0) + f(v)
  {
    SumRemove(m[k := v], f, k);
    assert m[k := v] - {k} == m - {k};
    if k in m {
      SumRemove(m, f, k);
    } else {
      assert m - {k} == m;
    }
  }

  function DayCount(d: DayStat): int { d.transactions }
  function TransactionCount(c: CustomerStat): int { c.transactions }
  function Sent(c: CustomerStat): int { c.totalSent }
  function Received(c: CustomerStat): int { c.totalReceived }

  /**
   * The counting invariant of the aggregate: the day counts add up to the number
   * of transactions, the customer counts to twice that (each transaction is
   * counted once for its sender and once for its receiver), and the sent and the
   * received sums each to the total amount.
   */
  ghost predicate Consistent(a: Aggregate) {
    && Sum(a.dayStatistics, DayCount) == a.total.transactions
    && Sum(a.customerStatistics, TransactionCount) == 2 * a.total.transactions
    && Sum(a.customerStatistics, Sent) == a.total.amount
    && Sum(a.customerStatistics, Received) == a.total.amount
  }

  /** One upsert adds one transaction, `sent` and `received` to the customer sums. */
  lemma CreditSums(m: map<Name, CustomerStat>, name: Name, sent: int, received: int)
    ensures Sum(Credit(m, name, sent, received), TransactionCount) == Sum(m, TransactionCount) + 1
    ensures Sum(Credit(m, name, sent, received), Sent) == Sum(m, Sent) + sent
    ensures Sum(Credit(m, name, sent, received), Received) == Sum(m, Received) + received
  {
    var v := Credit(m, name, sent, received)[name];
    assert Credit(m, name, sent, received) == m[name := v];
    SumUpdate(m, TransactionCount, name, v);
    SumUpdate(m, Sent, name, v);
    SumUpdate(m, Received, name, v);
  }

  /** Every fold keeps the counting invariant. */
  lemma ApplyKeepsConsistent(a: Aggregate, tx: Transaction, zone: int)
    requires Consistent(a)
    ensures Consistent(Apply(a, tx, zone))
  {
    var key := DayKey(tx.time, zone);
    var d := CountDay(a.dayStatistics, key)[key];
    assert CountDay(a.dayStatistics, key) == a.dayStatistics[key := d];
    SumUpdate(a.dayStatistics, DayCount, key, d);
    var once := Credit(a.customerStatistics, tx.sender, tx.amount, 0);
    CreditSums(a.customerStatistics, tx.sender, tx.amount, 0);
    CreditSums(once, tx.receiver, 0, tx.amount);
  }

  /** The sum of the amounts of `txs`. */
  function AmountSum(txs: seq<Transaction>): int
  {
    if txs == [] then 0 else AmountSum(txs[..|txs| - 1]) + txs[|txs| - 1].amount
  }

  /**
   * From the empty aggregate, folding n transactions gives `total.transactions = n`,
   * `total.amount` = the sum of their amounts, and the counting invariant: the day
   * counts sum to n, the customer counts to 2n, the sent and received sums each to
   * the total amount.
   */
  lemma {:induction false} FoldTotals(txs: seq<Transaction>, zone: int)
    ensures FoldAll(Empty, txs, zone).total == Totals(AmountSum(txs), |txs|)
    ensures Consistent(FoldAll(Empty, txs, zone))
  {
    if txs == [] {
      assert Empty.dayStatistics == map[] && Empty.customerStatistics == map[];
    } else {
      FoldTotals(txs[..|txs| - 1], zone);
      ApplyKeepsConsistent(FoldAll(Empty, txs[..|txs| - 1], zone), txs[|txs| - 1], zone);
    }
  }

  // ----- The aggregate against a direct count over the transactions -----

  /** How many times `name` takes part in `txs`, once as sender and once as receiver. */
  function Involvement(txs: seq<Transaction>, name: Name): nat
  {
    if txs == [] then 0
    else
      var last := txs[|txs| - 1];
      Involvement(txs[..|txs| - 1], name) + (if last.sender == name then 1 else 0) + (if last.receiver == name then 1 else 0)
  }

  /** The sum of the amounts `name` sent in `txs`. */
  function SentBy(txs: seq<Transaction>, name: Name): int
  {
    if txs == [] then 0
    else
      var last := txs[|txs| - 1];
      SentBy(txs[..|txs| - 1], name) + (if last.sender == name then last.amount else 0)
  }

  /** The sum of the amounts `name` received in `txs`. */
  function ReceivedBy(txs: seq<Transaction>, name: Name): int
  {
    if txs == [] then 0
    else
      var last := txs[|txs| - 1];
      ReceivedBy(txs[..|txs| - 1], name) + (if last.receiver == name then last.amount else 0)
  }

  /** How many of `txs` fall on the day that starts at `key`. */
  function OnDay(txs: seq<Transaction>, key: int, zone: int): nat
  {
    if txs == [] then 0
    else OnDay(txs[..|txs| - 1], key, zone) + (if DayKey(txs[|txs| - 1].time, zone) == key then 1 else 0)
  }

  /** A name that takes part in no transaction sent and received nothing. */
  lemma {:induction false} UninvolvedSumsZero(txs: seq<Transaction>, name: Name)
    requires Involvement(txs, name) == 0
    ensures SentBy(txs, name) == 0 && ReceivedBy(txs, name) == 0
  {
    if txs != [] {
      UninvolvedSumsZero(txs[..|txs| - 1], name);
    }
  }

  /**
   * From the empty aggregate, a customer has an entry exactly when it took part
   * in some transaction, and the entry holds its involvement count (a
   * self-transfer counts twice) and the sums it sent and received.
   */
  lemma {:induction false} FoldCustomers(txs: seq<Transaction>, zone: int, name: Name)
    ensures var customers := FoldAll(Empty, txs, zone).customerStatistics;
      && (name in customers <==> Involvement(txs, name) > 0)
      && (name in customers ==> customers[name] == CustomerStat(Involvement(txs, name), SentBy(txs, name), ReceivedBy(txs, name)))
  {
    if txs != [] {
      var front := txs[..|txs| - 1];
      FoldCustomers(front, zone, name);
      if Involvement(front, name) == 0 {
        UninvolvedSumsZero(front, name);
      }
      ApplyCustomers(FoldAll(Empty, front, zone), txs[|txs| - 1], zone);
    }
  }

  /** From the empty aggregate, a day has a bucket exactly when some transaction fell on it, and the bucket counts them. */
  lemma {:induction false} FoldDays(txs: seq<Transaction>, zone: int, key: int)
    ensures var days := FoldAll(Empty, txs, zone).dayStatistics;
      && (key in days <==> OnDay(txs, key, zone) > 0)
      && (key in days ==> days[key] == DayStat(OnDay(txs, key, zone)))
  {
    if txs != [] {
      FoldDays(txs[..|txs| - 1], zone, key);
    }
  }

  /** Folding a list whose first element is `tx` is folding `tx` and then the rest. */
  lemma {:induction false} FoldAllFront(a: Aggregate, tx: Transaction, txs: seq<Transaction>, zone: int)
    ensures FoldAll(a, [tx] + txs, zone) == FoldAll(Apply(a, tx, zone), txs, zone)
  {
    if txs != [] {
      var n := |txs|;
      assert ([tx] + txs)[..n] == [tx] + txs[..n - 1];
      FoldAllFront(a, tx, txs[..n - 1], zone);
    }
  }
}
