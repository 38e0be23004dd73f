/** The stash document: an ordered list of accounts, each holding an ordered
    list of transactions, as the handlers find it after `json.load`. Amounts
    are integer cents, so the source's `round(x, 2)` is the identity here. */
module Ledger {
  import opened Lookup

  /** A holder's date of birth, as `click.DateTime` parses it. */
  datatype Date = Date(year: nat, month: nat, day: nat)

  /** The `"type"` field of a transaction: only `"CREDIT"` and `"DEBIT"`
      are ever written. */
  datatype Kind = Credit | Debit

  /** One transaction object, fields in the order the handlers insert them.
      `date` and `time` are the clock's display strings, kept opaque. */
  datatype Transaction = Transaction(
    transactionId: int,
    date: string,
    time: string,
    description: string,
    kind: Kind,
    amount: int)

  /** One account object, fields in the order `add` inserts them. */
  datatype Account = Account(
    fullName: string,
    email: string,
    dob: Date,
    id: string,
    balance: int,
    transactions: seq<Transaction>)

  /** What `datetime.now()` gives a handler: the float timestamp in seconds
      and the `%d-%m-%Y` / `%H:%M:%S` strings formatted from it. */
  datatype Instant = Instant(timestamp: real, date: string, time: string)

  /** How a handler ends. Only `Ok` (and, for a declined transaction delete,
      `Declined`) is followed by a rewrite of the file; `IndexError` is the
      exception Python raises when an accumulated index is out of range. */
  datatype Status = Ok | AccountNotFound | TransactionNotFound | DuplicateAccount | Declined | IndexError

  /** Python's `int(x)` on a float: truncation toward zero. */
  function IntPart(x: real): (r: int)
    ensures 0.0 <= x ==> r as real <= x < r as real + 1.0
    ensures x < 0.0 ==> r as real - 1.0 < x <= r as real
  {
    if 0.0 <= x then x.Floor else -((-x).Floor)
  }

  /** The transaction object credit and debit build. */
  function Stamp(now: Instant, description: string, kind: Kind, amount: int): (t: Transaction)
    ensures t.transactionId == IntPart(now.timestamp)
    ensures t.kind == kind && t.amount == amount && t.description == description
    ensures Effect(t) == if kind == Credit then amount else -amount
  {
    Transaction(IntPart(now.timestamp), now.date, now.time, description, kind, amount)
  }

  /** The signed effect of a transaction on its account's balance. */
  function Effect(t: Transaction): int {
    match t.kind
    case Credit => t.amount
    case Debit => -t.amount
  }

  /** The effects of `ts` applied in append order, starting from zero. */
  function Total(ts: seq<Transaction>): int {
    if ts == [] then 0 else Total(ts[..|ts| - 1]) + Effect(ts[|ts| - 1])
  }

  /** The balance invariant: the stored balance is the sum of the signed
      amounts of the account's transactions. */
  predicate Balanced(a: Account) {
    a.balance == Total(a.transactions)
  }

  function IdsOf(doc: seq<Account>): (ids: seq<string>)
    ensures |ids| == |doc|
    ensures forall i :: 0 <= i < |doc| ==> ids[i] == doc[i].id
  {
    seq(|doc|, i requires 0 <= i < |doc| => doc[i].id)
  }

  function TxIdsOf(ts: seq<Transaction>): (ids: seq<int>)
    ensures |ids| == |ts|
    ensures forall i :: 0 <= i < |ts| ==> ids[i] == ts[i].transactionId
  {
    seq(|ts|, i requires 0 <= i < |ts| => ts[i].transactionId)
  }

  /** A consistent document: account ids are unique and every balance
      agrees with its transactions. */
  predicate Valid(doc: seq<Account>) {
    && Unique(IdsOf(doc))
    && forall i :: 0 <= i < |doc| ==> Balanced(doc[i])
  }

  /** Account `k` after credit or debit: `t` appended to its transactions
      and its balance moved by the amount. */
  function Record(doc: seq<Account>, k: nat, t: Transaction): (r: seq<Account>)
    requires k < |doc|
    ensures |r| == |doc|
    ensures forall i :: 0 <= i < |doc| && i != k ==> r[i] == doc[i]
    ensures r[k].id == doc[k].id
    ensures Balanced(doc[k]) ==> Balanced(r[k])
  {
    var a := doc[k];
    TotalAppend(a.transactions, t);
    doc[k := a.(transactions := a.transactions + [t], balance := a.balance + Effect(t))]
  }

  /** Account `k` after its `j`-th transaction is popped: a DEBIT's amount
      is added back to the balance, a CREDIT's is taken off. */
  function Unrecord(doc: seq<Account>, k: nat, j: nat): (r: seq<Account>)
    requires k < |doc| && j < |doc[k].transactions|
    ensures |r| == |doc|
    ensures forall i :: 0 <= i < |doc| && i != k ==> r[i] == doc[i]
    ensures r[k].id == doc[k].id
    ensures |r[k].transactions| == |doc[k].transactions| - 1
    ensures Balanced(doc[k]) ==> Balanced(r[k])
  {
    var a := doc[k];
    TotalRemove(a.transactions, j);
    var t := a.transactions[j];
    var balance := match t.kind
      case Debit => a.balance + t.amount
      case Credit => a.balance - t.amount;
    doc[k := a.(transactions := RemoveAt(a.transactions, j), balance := balance)]
  }

  lemma TotalAppend(ts: seq<Transaction>, t: Transaction)
    ensures Total(ts + [t]) == Total(ts) + Effect(t)
  {
    assert (ts + [t])[..|ts|] == ts;
  }

  /** Removing one transaction takes exactly its effect out of the total. */
  lemma {:induction false} TotalRemove(ts: seq<Transaction>, j: nat)
    requires j < |ts|
    ensures Total(RemoveAt(ts, j)) == Total(ts) - Effect(ts[j])
  {
    var n := |ts| - 1;
    var init := ts[..n];
    if j == n {
      assert RemoveAt(ts, j) == init;
    } else {
      TotalRemove(init, j);
      assert RemoveAt(ts, j) == RemoveAt(init, j) + [ts[n]];
      assert RemoveAt(ts, j)[..|RemoveAt(ts, j)| - 1] == RemoveAt(init, j);
      assert init[j] == ts[j];
    }
  }

  /** Credit and debit change account `k` only: the ids, the other accounts
      and the earlier transactions stay as they were; exactly one transaction
      is added, at the end. */
  lemma RecordFrame(doc: seq<Account>, k: nat, t: Transaction)
    requires k < |doc|
    ensures var r := Record(doc, k, t);
      && |r| == |doc|
      && IdsOf(r) == IdsOf(doc)
      && (forall i :: 0 <= i < |doc| && i != k ==> r[i] == doc[i])
      && |r[k].transactions| == |doc[k].transactions| + 1
      && r[k].transactions[..|doc[k].transactions|] == doc[k].transactions
      && r[k].transactions[|doc[k].transactions|] == t
      && r[k].balance == doc[k].balance + Effect(t)
  {
    var r := Record(doc, k, t);
    assert r[k].transactions[..|doc[k].transactions|] == doc[k].transactions;
    assert IdsOf(r) == IdsOf(doc);
  }

  /** Credit and debit keep the document consistent. */
  lemma RecordKeepsValid(doc: seq<Account>, k: nat, t: Transaction)
    requires Valid(doc) && k < |doc|
    ensures Valid(Record(doc, k, t))
  {
    RecordFrame(doc, k, t);
    TotalAppend(doc[k].transactions, t);
  }

  /** Deleting a transaction changes account `k` only, and reverses exactly
      that transaction's effect on the balance. */
  lemma UnrecordFrame(doc: seq<Account>, k: nat, j: nat)
    requires k < |doc| && j < |doc[k].transactions|
    ensures var r := Unrecord(doc, k, j);
      && |r| == |doc|
      && IdsOf(r) == IdsOf(doc)
      && (forall i :: 0 <= i < |doc| && i != k ==> r[i] == doc[i])
      && r[k].transactions == RemoveAt(doc[k].transactions, j)
      && r[k].balance == doc[k].balance - Effect(doc[k].transactions[j])
  {
    assert IdsOf(Unrecord(doc, k, j)) == IdsOf(doc);
  }

  /** Deleting a transaction keeps the document consistent. */
  lemma UnrecordKeepsValid(doc: seq<Account>, k: nat, j: nat)
    requires Valid(doc) && k < |doc| && j < |doc[k].transactions|
    ensures Valid(Unrecord(doc, k, j))
  {
    UnrecordFrame(doc, k, j);
    TotalRemove(doc[k].transactions, j);
  }

  /** A credit or debit followed by deleting that transaction by its id
      restores the document exactly, balance included, provided no earlier
      transaction of the account carries the same id. */
  lemma RecordThenDeleteRestores(doc: seq<Account>, k: nat, t: Transaction)
    requires k < |doc|
    requires t.transactionId !in TxIdsOf(doc[k].transactions)
    ensures var r := Record(doc, k, t);
      var j := Find(TxIdsOf(r[k].transactions), t.transactionId);
      && j == |doc[k].transactions|
      && Unrecord(r, k, j) == doc
  {
    var ts := doc[k].transactions;
    var r := Record(doc, k, t);
    assert TxIdsOf(r[k].transactions) == TxIdsOf(ts) + [t.transactionId];
    var j := Find(TxIdsOf(r[k].transactions), t.transactionId);
    assert TxIdsOf(r[k].transactions)[..|ts|] == TxIdsOf(ts);
    assert j == |ts|;
    assert r[k].transactions == ts + [t];
    assert (ts + [t])[..|ts|] == ts;
    assert RemoveAt(r[k].transactions, j) == ts;
    assert Unrecord(r, k, j)[k] == doc[k];
  }

  /** Transaction ids only have one-second granularity: when an earlier
      transaction of the account carries the new one's id, deleting by that
      id removes the earlier one and the new transaction stays. */
  lemma SameSecondDeleteRemovesOlder(doc: seq<Account>, k: nat, t: Transaction)
    requires k < |doc|
    requires t.transactionId in TxIdsOf(doc[k].transactions)
    ensures var r := Record(doc, k, t);
      var j := Find(TxIdsOf(r[k].transactions), t.transactionId);
      && 0 <= j < |doc[k].transactions|
      && var after := Unrecord(r, k, j)[k].transactions;
         |after| == |doc[k].transactions| && after[|after| - 1] == t
    ensures var r := Record(doc, k, t);
      var j := Find(TxIdsOf(r[k].transactions), t.transactionId);
      0 <= j < |doc[k].transactions|
      && Unrecord(r, k, j)[k].balance == doc[k].balance + Effect(t) - Effect(doc[k].transactions[j])
  {
    var ts := doc[k].transactions;
    var r := Record(doc, k, t);
    assert TxIdsOf(r[k].transactions) == TxIdsOf(ts) + [t.transactionId];
    var j := Find(TxIdsOf(r[k].transactions), t.transactionId);
    var p := Find(TxIdsOf(ts), t.transactionId);
    assert TxIdsOf(r[k].transactions)[p] == t.transactionId;
  }
}
