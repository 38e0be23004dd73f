/** The account commands of the current CLI: `add` (with its duplicate
    check), `delete`, and the read-only `summary` and `statement`. Each takes
    the document as loaded and returns the document it leaves, whether it
    rewrites the file, and how it ended. */
module Accounts {
  import opened Lookup
  import opened Ledger
  import opened Identity

  /** A cell of a rendered table; the currency label and colours are left to
      the presentation. */
  datatype Value = Text(text: string) | Day(date: Date) | Money(cents: int) | Number(n: int) | KindOf(kind: Kind) | History(ts: seq<Transaction>)

  /** One `key: value` item of an account or transaction object. */
  datatype Field = Field(key: string, value: Value)

  /** The items of an account object, in the order `add` inserts them. */
  function AccountFields(a: Account): seq<Field> {
    [ Field("full_name", Text(a.fullName)), Field("email", Text(a.email)), Field("dob", Day(a.dob)),
      Field("id", Text(a.id)), Field("balance", Money(a.balance)), Field("transactions", History(a.transactions)) ]
  }

  /** The items of a transaction object, in the order credit and debit
      insert them. */
  function TransactionFields(t: Transaction): seq<Field> {
    [ Field("transaction_id", Number(t.transactionId)), Field("date", Text(t.date)), Field("time", Text(t.time)),
      Field("description", Text(t.description)), Field("type", KindOf(t.kind)), Field("amount", Money(t.amount)) ]
  }

  /** The values of `fields` whose key is not `skip`, in order. */
  function ValuesExcept(fields: seq<Field>, skip: string): seq<Value> {
    if fields == [] then []
    else ValuesExcept(fields[..|fields| - 1], skip)
         + (if fields[|fields| - 1].key != skip then [fields[|fields| - 1].value] else [])
  }

  /** The keys of `fields` other than `skip`, in order. */
  function KeysExcept(fields: seq<Field>, skip: string): seq<string> {
    if fields == [] then []
    else KeysExcept(fields[..|fields| - 1], skip)
         + (if fields[|fields| - 1].key != skip then [fields[|fields| - 1].key] else [])
  }

  lemma ExceptStep(fields: seq<Field>, i: nat, skip: string)
    requires i < |fields|
    ensures ValuesExcept(fields[..i + 1], skip)
         == ValuesExcept(fields[..i], skip) + (if fields[i].key != skip then [fields[i].value] else [])
    ensures KeysExcept(fields[..i + 1], skip)
         == KeysExcept(fields[..i], skip) + (if fields[i].key != skip then [fields[i].key] else [])
  {
    assert fields[..i + 1][..i] == fields[..i];
  }

  /** An account's items without "transactions": its five plain fields. */
  lemma AccountFieldsExcept(a: Account)
    ensures ValuesExcept(AccountFields(a), "transactions")
         == [Text(a.fullName), Text(a.email), Day(a.dob), Text(a.id), Money(a.balance)]
    ensures KeysExcept(AccountFields(a), "transactions") == ["full_name", "email", "dob", "id", "balance"]
  {
    var fields := AccountFields(a);
    assert fields[..0] == [];
    ExceptStep(fields, 0, "transactions");
    ExceptStep(fields, 1, "transactions");
    ExceptStep(fields, 2, "transactions");
    ExceptStep(fields, 3, "transactions");
    ExceptStep(fields, 4, "transactions");
    ExceptStep(fields, 5, "transactions");
    assert fields[..6] == fields;
  }

  function SummaryRow(a: Account): seq<Value> {
    ValuesExcept(AccountFields(a), "transactions")
  }

  /** A statement row: every value of the transaction, in stored order. */
  function TransactionRow(t: Transaction): seq<Value> {
    [Number(t.transactionId), Text(t.date), Text(t.time), Text(t.description), KindOf(t.kind), Money(t.amount)]
  }

  /** The account `add` builds. */
  function NewAccount(fullName: string, email: string, dob: Date): (a: Account)
    ensures a.id == CreateUniqueId(fullName, dob)
    ensures a.balance == 0 && a.transactions == []
    ensures Balanced(a)
  {
    Account(fullName, email, dob, CreateUniqueId(fullName, dob), 0, [])
  }

  /** The document `add` leaves: unchanged for a duplicate, otherwise the new
      account appended. */
  function Added(contents: seq<Account>, fullName: string, email: string, dob: Date): (r: seq<Account>)
    ensures CreateUniqueId(fullName, dob) in IdsOf(r)
    ensures |contents| <= |r| <= |contents| + 1
    ensures r[..|contents|] == contents
    ensures CreateUniqueId(fullName, dob) in IdsOf(contents) ==> r == contents
  {
    assert (contents + [NewAccount(fullName, email, dob)])[..|contents|] == contents;
    assert IdsOf(contents + [NewAccount(fullName, email, dob)])[|contents|] == CreateUniqueId(fullName, dob);
    if IsDuplicate(contents, fullName, dob) then contents else contents + [NewAccount(fullName, email, dob)]
  }

  /** `add` keeps ids unique and balances consistent. */
  lemma AddKeepsValid(contents: seq<Account>, fullName: string, email: string, dob: Date)
    ensures Unique(IdsOf(contents)) ==> Unique(IdsOf(Added(contents, fullName, email, dob)))
    ensures Valid(contents) ==> Valid(Added(contents, fullName, email, dob))
  {
    if !IsDuplicate(contents, fullName, dob) {
      var a := NewAccount(fullName, email, dob);
      assert IdsOf(contents + [a]) == IdsOf(contents) + [a.id];
      assert Balanced(a);
    }
  }

  /** Adding the same name and date of birth twice, whatever the emails,
      leaves exactly one account with the derived id. */
  lemma AddTwiceKeepsOne(contents: seq<Account>, fullName: string, email1: string, email2: string, dob: Date)
    requires Count(IdsOf(contents), CreateUniqueId(fullName, dob)) <= 1
    ensures var twice := Added(Added(contents, fullName, email1, dob), fullName, email2, dob);
      Count(IdsOf(twice), CreateUniqueId(fullName, dob)) == 1
  {
    var id := CreateUniqueId(fullName, dob);
    CountPositive(IdsOf(contents), id);
    if !IsDuplicate(contents, fullName, dob) {
      var once := contents + [NewAccount(fullName, email1, dob)];
      assert IdsOf(once) == IdsOf(contents) + [id];
      CountAppend(IdsOf(contents), id, id);
      assert IsDuplicate(once, fullName, dob);
    }
  }

  /** `add`: builds the account, then appends it and rewrites the file only
      when `is_duplicate_account` finds no account with its id. */
  method Add(contents: seq<Account>, fullName: string, email: string, dob: Date)
    returns (result: seq<Account>, written: bool, status: Status)
    ensures status == Ok || status == DuplicateAccount
    ensures status == DuplicateAccount <==> CreateUniqueId(fullName, dob) in IdsOf(contents)
    ensures written <==> status == Ok
    ensures !written ==> result == contents
    ensures written ==> && |result| == |contents| + 1
                        && result[..|contents|] == contents
                        && result[|contents|].id == CreateUniqueId(fullName, dob)
                        && result[|contents|].balance == 0
                        && result[|contents|].transactions == []
    ensures result == Added(contents, fullName, email, dob)
    ensures Unique(IdsOf(contents)) ==> Unique(IdsOf(result))
    ensures Valid(contents) ==> Valid(result)
  {
    var account := Account(fullName, email, dob, CreateUniqueId(fullName, dob), 0, []);
    var duplicate := IsDuplicateAccount(contents, fullName, dob);
    if !duplicate {
      result := contents + [account];
      assert result[..|contents|] == contents;
      written, status := true, Ok;
    } else {
      result, written, status := contents, false, DuplicateAccount;
    }
    AddKeepsValid(contents, fullName, email, dob);
  }

  /** Popping an account keeps ids unique and balances consistent; with
      unique ids the popped id is gone from the document. */
  lemma RemoveAccountKeepsValid(contents: seq<Account>, k: nat)
    requires k < |contents|
    ensures IdsOf(RemoveAt(contents, k)) == RemoveAt(IdsOf(contents), k)
    ensures Valid(contents) ==> Valid(RemoveAt(contents, k))
    ensures Unique(IdsOf(contents)) ==> contents[k].id !in IdsOf(RemoveAt(contents, k))
  {
    var ids := IdsOf(contents);
    assert IdsOf(RemoveAt(contents, k)) == RemoveAt(ids, k);
    if Unique(ids) {
      RemoveAtUnique(ids, k);
      CountOfUnique(ids, contents[k].id);
      CountRemoveAt(ids, k, contents[k].id);
      CountPositive(RemoveAt(ids, k), contents[k].id);
    }
    if Valid(contents) {
      forall i | 0 <= i < |contents| - 1 ensures Balanced(RemoveAt(contents, k)[i]) {
        assert RemoveAt(contents, k)[i] == contents[if i < k then i else i + 1];
      }
    }
  }

  /** `delete`: finds the first account with the id (the loop breaks on the
      match) and, once confirmed, pops it and rewrites the file. An unknown
      id or a declined confirmation leaves the file alone. */
  method Delete(contents: seq<Account>, id: string, confirm: bool)
    returns (result: seq<Account>, written: bool, status: Status)
    ensures status == AccountNotFound <==> id !in IdsOf(contents)
    ensures status == Declined <==> id in IdsOf(contents) && !confirm
    ensures status == Ok <==> id in IdsOf(contents) && confirm
    ensures written <==> status == Ok
    ensures !written ==> result == contents
    ensures written ==> var k := Find(IdsOf(contents), id);
      0 <= k && contents[k].id == id && result == RemoveAt(contents, k)
    ensures written ==> |result| == |contents| - 1
    ensures Valid(contents) ==> Valid(result)
    ensures written && Unique(IdsOf(contents)) ==> id !in IdsOf(result)
  {
    var accountIndex := FirstIndex(IdsOf(contents), id);
    if accountIndex == -1 {
      result, written, status := contents, false, AccountNotFound;
    } else if confirm {
      RemoveAccountKeepsValid(contents, accountIndex);
      result, written, status := RemoveAt(contents, accountIndex), true, Ok;
    } else {
      result, written, status := contents, false, Declined;
    }
  }

  /** What `summary` shows: nothing for an empty document, otherwise a
      header and one row per account. */
  datatype SummaryView = NoAccounts | SummaryTable(headers: seq<string>, rows: seq<seq<Value>>)

  /** `summary`: one row per account, in document order, holding every field
      of the account except its transactions; the headers are the keys of the
      first account, less "transactions". */
  method Summary(contents: seq<Account>) returns (view: SummaryView)
    ensures view == NoAccounts <==> contents == []
    ensures view.SummaryTable? ==> && |view.rows| == |contents|
                                   && forall i :: 0 <= i < |contents| ==> view.rows[i] == SummaryRow(contents[i])
    ensures view.SummaryTable? ==> view.headers == ["full_name", "email", "dob", "id", "balance"]
  {
    if contents == [] {
      return NoAccounts;
    }
    var table: seq<seq<Value>> := [];
    for i := 0 to |contents|
      invariant |table| == i
      invariant forall j :: 0 <= j < i ==> table[j] == SummaryRow(contents[j])
    {
      var items := AccountFields(contents[i]);
      var row: seq<Value> := [];
      for f := 0 to |items|
        invariant row == ValuesExcept(items[..f], "transactions")
      {
        assert items[..f + 1][..f] == items[..f];
        if items[f].key != "transactions" {
          row := row + [items[f].value];
        }
      }
      assert items[..|items|] == items;
      table := table + [row];
    }
    var headers: seq<string> := [];
    var first := AccountFields(contents[0]);
    for f := 0 to |first|
      invariant headers == KeysExcept(first[..f], "transactions")
    {
      assert first[..f + 1][..f] == first[..f];
      if first[f].key != "transactions" {
        headers := headers + [first[f].key];
      }
    }
    assert first[..|first|] == first;
    AccountFieldsExcept(contents[0]);
    view := SummaryTable(headers, table);
  }

  /** A summary row is exactly the account's five plain fields. */
  lemma SummaryRowFields(a: Account)
    ensures SummaryRow(a) == [Text(a.fullName), Text(a.email), Day(a.dob), Text(a.id), Money(a.balance)]
  {
    AccountFieldsExcept(a);
  }

  /** What `statement` shows: an error, an info message for an account with
      no transactions, or the transactions followed by a total row. */
  datatype StatementView = Failed(status: Status) | NoTransactions | StatementTable(headers: seq<string>, rows: seq<seq<Value>>)

  /** `statement`: looks the account up with the accumulating loop that has no
      `break`, then lists its transactions in stored order, then a total row
      whose last cell is the balance and whose second-to-last cell is
      "Total:". */
  method Statement(contents: seq<Account>, id: string) returns (view: StatementView)
    ensures view == Failed(AccountNotFound) <==> id !in IdsOf(contents)
    ensures Unique(IdsOf(contents)) ==> view != Failed(IndexError)
    ensures view == Failed(IndexError) <==>
      id in IdsOf(contents) && Accumulated(IdsOf(contents), id) >= |contents|
    ensures view.Failed? ==> view.status in {AccountNotFound, IndexError}
    ensures !view.Failed? ==> var k := Accumulated(IdsOf(contents), id);
      && 0 <= k < |contents|
      && (Unique(IdsOf(contents)) ==> contents[k].id == id)
      && (view == NoTransactions <==> contents[k].transactions == [])
    ensures view.StatementTable? ==> var a := contents[Accumulated(IdsOf(contents), id)];
      && |view.rows| == |a.transactions| + 1
      && (forall i :: 0 <= i < |a.transactions| ==> view.rows[i] == TransactionRow(a.transactions[i]))
      && var total := view.rows[|a.transactions|];
         && |total| == 6
         && total[5] == Money(a.balance)
         && total[4] == Text("Total:")
         && forall c :: 0 <= c < 4 ==> total[c] == Text("")
    ensures view.StatementTable? ==> view.headers == ["transaction_id", "date", "time", "description", "type", "amount"]
  {
    var accountIndex := AccumulateIndex(IdsOf(contents), id);
    if accountIndex == -1 {
      return Failed(AccountNotFound);
    }
    if accountIndex >= |contents| {
      return Failed(IndexError);
    }
    var transactions := contents[accountIndex].transactions;
    if transactions == [] {
      return NoTransactions;
    }
    var tableData: seq<seq<Value>> := [];
    for i := 0 to |transactions|
      invariant |tableData| == i
      invariant forall j :: 0 <= j < i ==> tableData[j] == TransactionRow(transactions[j])
    {
      var items := TransactionFields(transactions[i]);
      var row: seq<Value> := [];
      for f := 0 to |items|
        invariant |row| == f
        invariant forall j :: 0 <= j < f ==> row[j] == items[j].value
      {
        row := row + [items[f].value];
      }
      assert row == TransactionRow(transactions[i]);
      tableData := tableData + [row];
    }
    var first := TransactionFields(transactions[0]);
    var tableHeaders: seq<string> := [];
    for f := 0 to |first|
      invariant |tableHeaders| == f
      invariant forall j :: 0 <= j < f ==> tableHeaders[j] == first[j].key
    {
      tableHeaders := tableHeaders + [first[f].key];
    }
    var totalColumns := |first|;
    var dataRow := seq(totalColumns, _ => Text(""));
    dataRow := dataRow[totalColumns - 1 := Money(contents[accountIndex].balance)];
    dataRow := dataRow[totalColumns - 2 := Text("Total:")];
    tableData := tableData + [dataRow];
    view := StatementTable(tableHeaders, tableData);
  }
}
